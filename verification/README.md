# Centroid core: a verified model

This project models the stateful and arithmetic core of Centroid in Dafny and proves what its parts promise over
every input and every run. Check it with `dafny verify dfyconfig.toml`.

Five groups of modules follow the program's own structure.

**Coherence graph** (`Graph`, `StructuralModel`, `Propagation`, `DoOperator`, `EdgeLaws`, `Locality`,
`DeadEdges`, `Ranges`, `CoherenceIndex`). `StructuralModel` gives the forward edges of an acyclic graph a
meaning without any visiting order: the unique solution of one equation per node, which folds the node's inbound
edges in declaration order over its seed and reads the sources' final values. The propagator class runs Kahn's
algorithm over a set of node ids that it traverses in an arbitrary order, then the in-place forward and feedback
passes. Every topological order is proved to compute the solution, so the result is deterministic, and the laws
of the do-operator, of dead-edge elimination and of the coherence index follow from the equations. `EdgeLaws`
says what each kind of edge does to the value its target would have without it.

**Planning** (`Calibration`, `Forecasting`, `PlanTree`, `FeedbackLoop`, `PlannerRuns`, `ThreadConfidence`,
`Daemon`). The classes update calibration records, last predictions, plan threads and the queue of pending
forecasts. Each method is proved to take the abstract state `Planner` to what a function (`Registered`,
`Resolved`) says, and `PlannerRuns` proves safety of that state machine over every run of commands;
`ThreadConfidence` says which forecast of a resolution decides a thread and what its confidence then is.
`Daemon` proves that n calls of the cycle runner are such a run.

**Memory** (`SparseVectors`, `Tfidf`, `StaleFrequencies`, `Retrieval`, `MemoryStore`, `MemoryPyramid`,
`MemoryTiers`): term weights, cosine similarity, salience, ranked search over an append-only log, and compaction
into tiers.

**Rolling statistics** (`Regression`, `LeastSquares`, `HealthScorer`, `AnomalyDetector`, `Divergence`,
`SafetyPreflight`): the regression slope (the two copies in the program are one function here), bounded windows,
recency-weighted means, and the preflight that uses them.

**Configuration** (`AgentConfig`): the recursive loader with cycle detection and the recursive tree merge.

`RealArith`, `Rounding`, `Sequences` and `Sorting` hold what these share. Floats are real numbers with the
decimal rounding the program performs: `round(x, d)` is the nearest multiple of 10^-d, ties going to the even
one. `Sequences` models slices, bounded deques and insertion-ordered dictionaries; `Sorting` is the stable sort.
The logarithm and the square root are parameters of which only ln 1 = 0, monotonicity, s >= 0 and s * s = x are
used. Fresh ids, clocks and entry ages, the tokenizer, path resolution and file contents are parameters as well.
The graph's preconditions (edges between declared nodes, weights in [0, 1]) are those
`core/coherence/graph_loader.py:79-128` enforces.

Where the program and its own text differ, the model follows the program:

- The text says that every edge's output is clamped where the edge is applied
  (`core/coherence/propagation.py:121`); values are clamped only once, after the feedback pass. From values in
  [0, 1] an edge leaves the interval exactly when it adds beyond one (`Ranges.EdgeInUnit`), and
  `Ranges.AddingLeavesUnit` is a graph whose raw value is 2.
- The text says that the index recomputes document frequencies on each search
  (`core/memory/tfidf_index.py:106-109`); a search uses what the last recomputation and later additions left.
  After an addition they are up to date exactly when no term was known before and the document is empty or the
  first (`StaleFrequencies.StaleAfterAdd`); `StaleFrequencies.StaleSearch` is a search whose score differs.
- A tail is said to hold up to `limit` events (`core/memory/store.py:81-82`); a limit of zero gives the whole
  log (`MemoryStore.TailWithinLimit` states exactly when the promise holds).
- Compaction is said to keep the newer of equally salient entries (`core/memory/memory_pyramid.py:107-108`); it
  sorts by the age rounded to a tenth of an hour. A kept entry can be older than an evicted one only where the
  rounded ages tie, and then by at most that tenth (`MemoryPyramid.NewerKept`); of two such entries the one
  listed first is kept, whichever is newer (`MemoryPyramid.FirstListedKept`).

Laws that hold under a condition:

- An intervention leaves unreachable nodes alone, whatever the kinds, weights, seeds and fixed value, exactly
  when the graph's shape is of one of three kinds (`Locality.LocalityExactly`): the forward edges are acyclic;
  they stay cyclic when severed; or severing removes their last cycle and no forward edge into an unreachable
  node comes from a node that is declared after it and has inbound forward edges itself. In the remaining
  graphs declaration order reads that source too early (`Locality.LateMoves`); `Locality.LocalityNeedsOrder` is
  one of them.
- Holding a node at its own raw forward value drops the sum of its feedback corrections and, before rounding,
  leaves the node as it was exactly when they cancel (`DoOperator.CompositionShift`). A single inbound
  feedback edge does so exactly when its source stands at one half or its weight is zero
  (`DoOperator.OneInboundFeedback`).
- The configuration merge is associative exactly on the triples of `AgentConfig.MergeAssociative`; a leaf
  between two objects can break it (`AgentConfig.LeafBetweenObjects`).
- Two horizons let different pairs share a calibration record exactly when one ends in a colon followed by the
  other (`Calibration.KeyCollision`).
- Active threads stay at or above the abandon threshold exactly when rounding does not take the threshold
  below itself (`PlannerRuns.ActiveAboveThreshold`).

## Model

| member | source | states |
|---|---|---|
| Propagation.CountDegrees | core/coherence/propagation.py:90-95 | in-degrees count parallel edges and self-loops; child lists hold one entry per edge |
| Propagation.Release | core/coherence/propagation.py:103-106 | taking an emitted node's edges off keeps the invariant: the queue holds exactly the free nodes, once each, and degrees count edges from nodes not yet emitted |
| Propagation.PopKeepsInvariant | core/coherence/propagation.py:100-102 | emitting the head of the queue keeps every edge into an emitted node pointing forward |
| Propagation.StuckIsCyclic | core/coherence/propagation.py:108-112 | an empty queue leaves all nodes emitted in topological order, or no rank function exists |
| Propagation.Kahn | core/coherence/propagation.py:88-112 | terminates on every multigraph; a permutation of the nodes with every edge strictly forward if a rank function exists, otherwise declaration order |
| Propagation.TopologicalPropagator.constructor | core/coherence/propagation.py:18-35 | separates the edges, fixes an order of the kind Kahn promises, and sums each node's inbound weights, one when there are none |
| Propagation.TopologicalPropagator.Visit | core/coherence/propagation.py:67-76 | the inner loop is the visit function that overwrites one node edge by edge |
| Propagation.TopologicalPropagator.Propagate | core/coherence/propagation.py:49-86 | whatever order the constructor settled on, the result is the order-free meaning of the graph |
| StructuralModel.VisitIsInbound | core/coherence/propagation.py:66-76 | overwriting a node edge by edge equals folding its inbound edges over its value, for nodes without self-loops |
| StructuralModel.SolutionsAgree | core/coherence/propagation.py:66-76 | two assignments that satisfy the equations on an ancestor-closed set of nodes agree there |
| StructuralModel.SolutionUnique | core/coherence/propagation.py:66-76 | an acyclic graph's equations have one solution |
| StructuralModel.DenotationSolves | core/coherence/propagation.py:66-76 | the recursive evaluation from sources to targets is a solution |
| StructuralModel.ForwardPassIsRawForward | core/coherence/propagation.py:66-76 | the in-place pass along any topological order computes that solution |
| StructuralModel.OrderIndependence | core/coherence/propagation.py:58-86 | every topological order gives the same final values |
| DoOperator.DoOperator.Apply | core/coherence/do_operator.py:33-61 | the result is the meaning of the graph without the node's inbound edges, from the seeds with its value overwritten |
| DoOperator.DoOperator.Compare | core/coherence/do_operator.py:63-78 | the rounded change of every node of either result, absent values counting as zero |
| DoOperator.Effectiveness | core/coherence/do_operator.py:33-61 | an intervened node ends at clamp(round(fixed value)), in cyclic graphs too |
| Locality.Locality | core/coherence/do_operator.py:33-61 | a node not reachable from the intervened one keeps its baseline value although the severed graph is sorted anew: in acyclic graphs, in those that stay cyclic when severed, and in those with distinct ids in which every source of an edge into an unreachable node is declared before it or has no inbound forward edge |
| Locality.LocalityExactly | core/coherence/do_operator.py:33-61 | with distinct ids that condition on the shape is exact: it holds if and only if no unreachable node moves under any kinds, unit weights, seeds and fixed value |
| Locality.LateMoves | core/coherence/propagation.py:108-112 | where severing removes the last cycle and such a source is declared late, its target moves for suitable kinds, weights and seeds, whatever the fixed value |
| Locality.LocalityNeedsOrder | core/coherence/propagation.py:108-112 | a graph whose last cycle the severing removes: the changed visiting order moves an unreachable node from zero to one |
| DoOperator.Composition | core/coherence/do_operator.py:33-61 | fixing a node without inbound feedback at its own raw forward value changes no node |
| DoOperator.FeedbackShift | core/coherence/propagation.py:78-83 | the feedback pass adds to each node exactly the sum of its corrections, each read as the pass finds its source |
| DoOperator.CompositionShift | core/coherence/do_operator.py:33-61 | holding a node at its raw forward value drops exactly that sum, so before rounding the node is unchanged if and only if the sum is zero |
| DoOperator.OneInboundFeedback | core/coherence/propagation.py:133-135 | a single inbound feedback edge leaves its target as it was if and only if its source stands at one half when it is applied or it has no weight |
| DoOperator.CompositionNeedsNoFeedback | core/coherence/do_operator.py:33-61 | a two-node graph in which the lost correction shows in the reported value |
| Locality.UnreachableDelta | core/coherence/do_operator.py:63-78 | under the same condition an unreachable node's reported change is zero |
| DoOperator.DeltaAntisymmetric | core/coherence/do_operator.py:63-78 | exchanging baseline and intervention negates every change, rounding included |
| Locality.DeltaAddsUp | core/coherence/do_operator.py:63-78 | baseline plus reported change is exactly the intervened score, of every node of every declared graph |
| DoOperator.AbsentCountsZero | core/coherence/do_operator.py:74-77 | a node only one of the results knows changes by its whole value, with the sign of the side it is on |
| EdgeLaws.LastEdge | core/coherence/propagation.py:118-130 | in every acyclic graph the last edge into a node acts on the value the node would have without that edge: multiplicative, proportional and modulating edges replace it by source times weight, additive and reinforcing ones add that, suppression multiplies it by one minus that, unknown kinds leave it |
| EdgeLaws.OnlyEdge | core/coherence/propagation.py:118-130 | the only edge into a node acts so on the node's seed |
| EdgeLaws.Reports | core/coherence/propagation.py:78-86 | a node reports its forward value plus its feedback corrections, rounded and clamped |
| EdgeLaws.RootReports | core/coherence/propagation.py:58-64 | in every declared graph a node nothing points into reports its own seed, rounded and clamped, or one half when it has none |
| DeadEdges.PrunePreservesPropagation | core/coherence/propagation.py:118-130 | deleting every forward edge that a later scaling edge into the same node follows leaves the result unchanged, for all seeds |
| DeadEdges.PruneComplete | core/coherence/propagation.py:118-130 | no forward edge that survives is followed by a scaling edge into its node |
| DeadEdges.ScaledSeedIrrelevant | core/coherence/propagation.py:118-130 | the seed of a node with an inbound scaling edge influences no node |
| Ranges.OutcomeMonotone | core/coherence/propagation.py:49-86 | without suppressing edges, pointwise larger seeds give pointwise larger results, in any order, cycles included |
| Ranges.SuppressionBreaksOrder | core/coherence/propagation.py:127-128 | the condition is needed: on two nodes joined by a suppressing edge, larger seeds take the reported target from one to zero |
| Ranges.EdgeInUnit | core/coherence/propagation.py:118-130 | from values in [0, 1] an edge leaves [0, 1] if and only if it is additive and adds beyond one |
| Ranges.AddingLeavesUnit | core/coherence/propagation.py:66-86 | a two-node graph with unit seeds whose raw value is 2 and whose reported value is 1 |
| Ranges.ForwardInUnit | core/coherence/propagation.py:118-130 | without additive edges, seeds in [0, 1] keep every raw forward value in [0, 1] |
| Ranges.RawRange | core/coherence/propagation.py:133-135 | after m feedback edges every value about to be rounded is within half of 1.05^m of one half |
| Ranges.PropagatedOnGrid | core/coherence/propagation.py:85-86 | every reported score is a six-decimal number in [0, 1] |
| CoherenceIndex.CoherenceIndexCalculator.Compute | core/coherence/coherence_index.py:34-66 | the rounded, clamped weighted mean; the first listed of the lowest and the last listed of the highest scores; the empty report for no scores |
| CoherenceIndex.IndexBetweenExtremes | core/coherence/coherence_index.py:45-65 | even after rounding the index lies between the weakest and the strongest score |
| CoherenceIndex.PropagatedScoresQualify | core/coherence/coherence_index.py:28-32 | propagated scores and a propagator's weights always meet what that bound asks for |
| CoherenceIndex.MeanOrderIndependent | core/coherence/coherence_index.py:45-53 | the mean does not depend on the order in which the scores are listed |
| CoherenceIndex.MeanBalances | core/coherence/coherence_index.py:45-53 | the unrounded index is the one number around which the weighted scores balance, a node without a weight counting once |
| CoherenceIndex.InboundConserved | core/coherence/propagation.py:28-35 | summed over all nodes the inbound weights are the weights of all edges |
| CoherenceIndex.RootWeighsOne | core/coherence/propagation.py:35 | a node nothing points into weighs one |
| Calibration.CalibrationStore.Update | core/planner/calibration.py:35-59 | the new store is the old one with the key's rounded running means advanced by this error; returns the stored record |
| Calibration.KeyInjective | core/planner/calibration.py:44 | for horizons without a colon, equal keys mean equal field and horizon |
| Calibration.KeyCollision | core/planner/calibration.py:44 | two horizons let different pairs share a key if and only if one ends in a colon followed by the other |
| Calibration.StoreTracks | core/planner/calibration.py:35-59 | in every reachable store a key has a record exactly when it was observed; the record counts exactly its observations |
| Calibration.BiasBelowMae | core/planner/calibration.py:54-55 | rounding both means separately never lifts the absolute bias above the mean absolute error |
| Calibration.DriftBound | core/planner/calibration.py:35-59 | after n updates both stored means are within (n + 1) / 2 times 5e-7 of the exact means, and the absolute bias is at most the mean absolute error |
| Calibration.BiasOfOneSided | core/planner/calibration.py:51-55 | a pair whose predictions were all too high has a bias equal to its mean absolute error, and the negated one if all were too low, in every reachable store |
| Calibration.FirstObservation | core/planner/calibration.py:47-56 | the first observation of a pair stores its absolute error and its error, predicted minus actual, rounded |
| Forecasting.ForecastGenerator.GenerateOne | core/planner/forecast.py:76-107 | one horizon's forecast and stored predictions are the field-by-field smoothing and the calibrated confidence |
| Forecasting.ForecastGenerator.Generate | core/planner/forecast.py:57-109 | one forecast per horizon in order, each from its own last predictions, which all move on |
| Forecasting.SmoothFieldsInUnit | core/planner/forecast.py:80-86 | inputs and last predictions in [0, 1] give predictions in [0, 1], repeated fields included |
| Forecasting.HorizonsAgree | core/planner/forecast.py:52-55 | in every reachable state the three horizons hold equal predictions, in [0, 1] for inputs in [0, 1] |
| Forecasting.HorizonsPredictTheSame | core/planner/forecast.py:72-109 | in every reachable state one call predicts the same for all horizons, with distances 1, 5 and 20 |
| Forecasting.PredictionIsStored | core/planner/forecast.py:80-86 | what a forecast predicts for a field is exactly what is stored for it |
| Forecasting.Convergence | core/planner/forecast.py:80-86 | under a constant input c the k-th stored prediction is within (1 - alpha)^k times the distance of one half to c, plus 5e-7 / alpha, of c |
| Forecasting.TracksExactMean | core/planner/forecast.py:76-86 | whatever the inputs, every stored prediction is within 5e-7 / alpha of the exact exponential mean of them, absent ones and the start counting as one half |
| ThreadConfidence.RawConfidenceMatches | core/planner/forecast.py:88-96 | the raw confidence is the one number c with c n plus the sum of the n recorded mean absolute errors equal to n, and one half when n is zero |
| ThreadConfidence.IssuedConfidence | core/planner/forecast.py:88-97 | an issued forecast's confidence is that number for its fields and horizon, clamped and rounded |
| PlanTree.PlanTree.AddThread | core/planner/plan_tree.py:49-69 | a new active thread with rounded confidence is filed under its id |
| PlanTree.PlanTree.UpdateConfidence | core/planner/plan_tree.py:71-80 | stores the rounded confidence and abandons when the unrounded one is below the threshold; nothing changes for an unknown id |
| PlanTree.PlanTree.Complete | core/planner/plan_tree.py:82-88 | marks the thread completed and nothing else; nothing changes for an unknown id |
| FeedbackLoop.ForecastFeedbackLoop.Register | core/planner/feedback_loop.py:64-69 | files the forecast with the current cycle |
| FeedbackLoop.ForecastFeedbackLoop.ScoreForecast | core/planner/feedback_loop.py:92-112 | one result per predicted field in order, and the calibration store that learned exactly these |
| FeedbackLoop.ForecastFeedbackLoop.RefreshThreads | core/planner/feedback_loop.py:115-128 | reassesses exactly the active threads linked to the forecast, with the confidence the updated records give |
| FeedbackLoop.ForecastFeedbackLoop.ResolveMature | core/planner/feedback_loop.py:82-130 | takes up the matured forecasts in order of registration |
| FeedbackLoop.DeleteMature | core/planner/feedback_loop.py:132-134 | deleting the resolved ids one by one leaves exactly the entries that still wait |
| FeedbackLoop.ForecastFeedbackLoop.Resolve | core/planner/feedback_loop.py:71-136 | the whole new state and the results of one resolution |
| FeedbackLoop.ResultAddsUp | core/planner/feedback_loop.py:92-112 | prediction plus reported error is the actual value up to half a unit of the sixth decimal; a field that was not reported counts as predicted right |
| ThreadConfidence.ThreadJudged | core/planner/feedback_loop.py:114-128 | over one resolution an active thread is decided by the first linked forecast whose confidence falls below the threshold, or else by the last linked one: it gets that forecast's confidence, rounded, from the records the results up to it have taught, and is abandoned exactly when it is below the threshold |
| ThreadConfidence.ThreadUntouched | core/planner/feedback_loop.py:114-128 | a thread no matured forecast is linked to stays as it is |
| ThreadConfidence.AllFieldsRecorded | core/planner/feedback_loop.py:118-126 | when a forecast reassesses its threads each of its fields has a record, so the mean is over all of them |
| PlannerRuns.QueuedUntilDue | core/planner/feedback_loop.py:64-136 | over any run with fresh ids a registered forecast is queued, unchanged, exactly until its due cycle is reached |
| PlannerRuns.ExactlyOnce | core/planner/feedback_loop.py:64-136 | the resolution that reaches the due cycle emits the forecast's complete results, and no other resolution emits any |
| PlannerRuns.IdsConserved | core/planner/feedback_loop.py:64-136 | registered ids are, as multisets, the pending ids plus the resolved ids |
| PlannerRuns.PendingAndResolvedDisjoint | core/planner/feedback_loop.py:132-134 | no id is resolved twice or both pending and resolved |
| PlannerRuns.RecordsAreLearned | core/planner/feedback_loop.py:92-112 | a run's calibration records are what its results, in order, teach an empty store |
| PlannerRuns.SampleCountIsResults | core/planner/calibration.py:44-56 | each record's sample count is the number of results emitted under its key, and its means obey the drift bound for them |
| PlannerRuns.ResolutionKeepsInactive | core/planner/feedback_loop.py:114-128 | resolving any list of forecasts leaves every inactive thread as it is |
| PlannerRuns.AbandonedWithinResolution | core/planner/feedback_loop.py:114-128 | also a thread abandoned earlier in the same resolution |
| PlannerRuns.TerminalIsTerminal | core/planner/plan_tree.py:71-92 | completed and abandoned threads stay exactly as they are over runs that complete only active threads |
| PlannerRuns.ActiveAboveThreshold | core/planner/plan_tree.py:71-80 | every active thread is at or above the threshold in all states reachable with threads that start there, if and only if rounding does not take the threshold below itself; so on the six-decimal grid |
| PlannerRuns.AbandonedMayShowThreshold | core/planner/plan_tree.py:75-78 | the gate compares before rounding: every confidence below the threshold abandons the thread, which then shows the threshold itself if and only if the threshold is on the six-decimal grid and the confidence is less than half a unit below it, or exactly that with an even last digit |
| Daemon.CycleRunner.RegisterAll | core/daemon/cycle.py:85-87 | registers the issued forecasts in order |
| Daemon.CycleRunner.Run | core/daemon/cycle.py:82-98 | forecasts from the records before the cycle, all registered, then one resolution against the same values |
| Daemon.CycleIsRun | core/daemon/cycle.py:82-98 | a cycle is the run of three registrations and a resolution, so all results about runs hold for the daemon |
| Daemon.QueueIsLive | core/planner/feedback_loop.py:81-88 | the queue holds exactly the registrations whose due cycle is still ahead |
| Daemon.QueueLength | core/daemon/cycle.py:82-98 | after n cycles at the three distances exactly min(n, 4) + min(n, 19) forecasts are pending, never more than 23 |
| Daemon.DaemonIsRun | core/daemon/cycle.py:82-98 | n calls of the runner are the run of the commands of the forecasts it issues, at distances 1, 5 and 20 and under the given ids |
| Daemon.DaemonQueueLength | core/daemon/daemon.py:105-106 | so after n calls from an empty queue with fresh ids the queue has that exact length |
| Daemon.CentroidDaemon.RunCycles | core/daemon/daemon.py:105-106 | the loop of n calls: its final state, one result per cycle, and the exact queue length |
| Daemon.SnapshotValues | core/daemon/cycle.py:139-144 | a cycle compares forecasts with the health of every node and the system ratio under its own name, with nothing when there is no snapshot |
| SparseVectors.CauchySchwarz | core/memory/tfidf_index.py:59-67 | the squared dot product is at most the product of the sums of squares |
| SparseVectors.SparseCosine | core/memory/tfidf_index.py:59-67 | the loops compute the cosine, zero for a vector without magnitude, in whatever order keys are visited |
| SparseVectors.CosineLaws | core/memory/tfidf_index.py:59-67 | for positive weights the similarity is in [0, 1], symmetric, zero exactly for disjoint keys, one for a non-empty vector against itself |
| SparseVectors.CosineOfPart | core/memory/tfidf_index.py:59-67 | the similarity of a vector with the part of it that some keys hold is the ratio of the magnitudes |
| Tfidf.TfLaws | core/memory/tfidf_index.py:40-44 | repeating a document changes no frequency, a term occurs more often exactly when its frequency is higher, and the only term of a document has ln 2 |
| Tfidf.IdfLaws | core/memory/tfidf_index.py:47-53 | a term weighs one exactly when it is in every document, more than another exactly when it is in fewer, and one plus ln k at a smoothed share of one in k |
| Tfidf.UnknownTermsWeighOnce | core/memory/tfidf_index.py:146-190 | a term without a document frequency weighs its term frequency, any other the product of both |
| Tfidf.TfPositive | core/memory/tfidf_index.py:40-44 | every term frequency is positive |
| Tfidf.ComputeIdf | core/memory/tfidf_index.py:47-53 | the counting loops give every term of the corpus its inverse document frequency |
| Tfidf.IdfAtLeastOne | core/memory/tfidf_index.py:47-53 | every inverse document frequency is at least one, for any corpus |
| Tfidf.TfidfIndex.Add | core/memory/tfidf_index.py:123-139 | appends the entry; each of its terms' frequency value grows by one, others stay |
| Tfidf.TfidfIndex.RecomputeIdf | core/memory/tfidf_index.py:141-144 | the frequencies are those of exactly the indexed documents |
| StaleFrequencies.StaleAfterAdd | core/memory/tfidf_index.py:123-139 | after an addition to an up-to-date index the frequencies are up to date if and only if no term was known before and the document is empty or the first |
| StaleFrequencies.StaleSearch | core/memory/tfidf_index.py:146-190 | a document whose score in a search after its addition is higher than with recomputed frequencies |
| Tfidf.TfidfIndex.Search | core/memory/tfidf_index.py:146-190 | the first k of the positively scored entries in stable descending order of rounded score |
| Tfidf.SimilarityLaws | core/memory/tfidf_index.py:146-190 | in every index state the similarity of a query with an entry obeys the cosine laws over their terms |
| Tfidf.RankedTopK | core/memory/tfidf_index.py:189-190 | with positive scores exactly min(k, size) entries are returned, descending, none dropped outranks one kept, and together they are the index |
| Tfidf.RankedScores | core/memory/tfidf_index.py:146-190 | every hit is an indexed entry with its own positive score, rounded |
| Retrieval.ComputeSalience | core/memory/retrieval.py:22-52 | the loop adds up base, source, event type and signal weights, caps at one and rounds to three decimals |
| Retrieval.SalienceRange | core/memory/retrieval.py:33-52 | with weights that are not negative every salience lies in [0.1, 1] after rounding |
| Retrieval.BlendedPositive | core/memory/retrieval.py:152-160 | the blended score of every entry with every query is positive |
| Retrieval.BlendedScore | core/memory/retrieval.py:152-160 | beyond three tenths of the salience a search scores exactly seven tenths of the similarity: nothing if and only if no term is shared, all of it for the query's own tokens in any order |
| Retrieval.ExactMatchFirst | core/memory/retrieval.py:152-160 | an entry with the query's tokens outscores every entry that shares none by at least 0.43, whatever the saliences |
| Retrieval.SalienceClose | core/memory/retrieval.py:33-52 | the salience is the sum of the base and the weights that apply to within half a unit of the third decimal, and one from one on |
| Retrieval.PlainSalience | core/memory/retrieval.py:55-85 | the exact salience of an entry without signal terms for each default source and event type |
| Retrieval.SignalsAddUp | core/memory/retrieval.py:47-50 | signal terms add up, each with its weight once if it stands anywhere in the text and with nothing otherwise |
| Retrieval.CaseIgnored | core/memory/retrieval.py:34 | upper and lower case make no difference to the salience |
| MemoryStore.MemoryStore.constructor | core/memory/store.py:53-65 | opening a log indexes exactly its last 5000 events |
| MemoryStore.MemoryStore.Append | core/memory/store.py:69-79 | log and index both grow by the event, and the frequencies are recomputed |
| MemoryStore.MemoryStore.Tail | core/memory/store.py:81-86 | the slice of the log from its end |
| MemoryStore.TailWithinLimit | core/memory/store.py:81-86 | a tail is the log's last elements and no more than the limit exactly when the limit is positive |
| MemoryStore.MemoryStore.Search | core/memory/store.py:90-128 | reports the ranked hits and counts one retrieval per hit before it is reported |
| MemoryStore.RetrievalsCounted | core/memory/store.py:98-110 | every retrieval is counted once, under the document retrieved |
| MemoryStore.SourcesRecorded | core/memory/store.py:98-110 | every retrieval adds its source, in order, under the document retrieved |
| MemoryStore.MemoryStore.RebuildIndex | core/memory/store.py:154-171 | clears the index and refills it from the last 5000 events |
| MemoryStore.ReopenRoundTrip | core/memory/store.py:154-171 | reopening a store that indexed its whole log restores index and frequencies exactly when the log holds at most 5000 events |
| MemoryStore.SearchIsTopK | core/memory/store.py:90-128 | every search returns exactly min(k, index size) hits in descending order, and none it drops outranks one it returns |
| MemoryStore.HitScores | core/memory/store.py:90-128 | every hit is an indexed entry reported with 0.7 times its similarity plus 0.3 times its salience, rounded |
| MemoryStore.OwnTextScores | core/memory/store.py:69-79 | an event searched for by its type, a colon and its content gets the full similarity share |
| MemoryStore.MetadataWins | core/memory/store.py:77 | an event type in the event's own metadata wins over the event's type |
| MemoryPyramid.MemoryPyramid.Distribute | core/memory/memory_pyramid.py:112-121 | the loop puts every entry, in order, into the bucket of its tier |
| MemoryPyramid.MemoryPyramid.Compact | core/memory/memory_pyramid.py:101-160 | sorting and filling the tiers in turn gives the compaction function |
| MemoryPyramid.CompactionPartitions | core/memory/memory_pyramid.py:101-160 | retained and evicted partition the input as multisets, for every capacity and whatever the ids |
| MemoryPyramid.CompactionShape | core/memory/memory_pyramid.py:101-160 | with distinct ids each tier keeps the head of its ranking and evicts the rest, in this order; the retained count of a later tier is zero when it is filled |
| MemoryPyramid.TierSizes | core/memory/memory_pyramid.py:132-155 | with distinct ids exactly min(capacity, bucket size) entries of each tier are retained |
| MemoryPyramid.BestKept | core/memory/memory_pyramid.py:123-127 | of two entries of a tier a retained one is more salient than an evicted one or, when equally salient, not older by the age rounded to one decimal |
| MemoryPyramid.NewerKept | core/memory/memory_pyramid.py:107-108 | a kept entry is at most a tenth of an hour older than an evicted one of its tier and salience, and older only when their rounded ages tie |
| MemoryPyramid.FirstListedKept | core/memory/memory_pyramid.py:123-127 | of two entries equal in tier, salience and rounded age the one listed first is kept when there is room for one, whichever is newer |
| MemoryTiers.RetainedExactly | core/memory/memory_pyramid.py:76-87 | with distinct ids and room for all or none in each tier an entry is retained if and only if the first tier it qualifies for has room: salience 0.5 and under an hour, 0.3 and under a day, or 0.2; otherwise it is evicted |
| MemoryTiers.EvictedExactly | core/memory/memory_pyramid.py:101-160 | with room for everything exactly the entries of salience below 0.2 are evicted |
| MemoryTiers.DefaultTiers | core/memory/memory_pyramid.py:65-95 | under the default weights entries of unknown source and type without signal terms are archived, and fresh decisions in the audit log are active whatever their text |
| MemoryPyramid.CompactionIdempotent | core/memory/memory_pyramid.py:101-160 | compacting the retained list again returns it unchanged and evicts nothing |
| MemoryPyramid.MemoryPyramid.TierCounts | core/memory/memory_pyramid.py:162-167 | the number of decisions per tier |
| MemoryPyramid.CountsAddUp | core/memory/memory_pyramid.py:162-167 | every decision is counted in exactly one tier |
| Sorting.SortStable | core/memory/tfidf_index.py:189 | sorting keeps the order of elements with equal keys |
| Sorting.SortEnds | core/coherence/coherence_index.py:56-58 | the first of a stable sort is the first listed with the lowest key, the last the last listed with the highest |
| Regression.DenominatorPositive | core/self_model/health_scorer.py:102-105 | with two or more values the denominator is never zero |
| Regression.SlopeOfLine | core/simulation/divergence.py:137-144 | on a + b i the slope is exactly b |
| Regression.SlopeOfRising | core/self_model/health_scorer.py:87-107 | on every non-decreasing sequence the slope is not negative (Chebyshev's sum inequality) |
| Regression.SlopeOfReversed | core/simulation/divergence.py:137-144 | reversing the values negates the slope |
| Regression.SlopeBound | core/simulation/divergence.py:137-144 | for values in [0, 1] the slope is at most one in magnitude |
| Regression.TrendBound | core/self_model/health_scorer.py:87-107 | the bound carries over to the trend for every trend window, zero and negative ones included |
| LeastSquares.NormalEquations | core/simulation/divergence.py:137-144 | the residuals of the line of the computed slope sum to zero, and so do their products with the indices' distances from the middle |
| LeastSquares.BestExactly | core/simulation/divergence.py:137-144 | no line has a smaller sum of squared residuals, and no other line has the same |
| HealthScorer.HealthScorer.Update | core/self_model/health_scorer.py:42-71 | appends the clipped mean to the source's bounded history and reports rounded score and trend; other sources stay |
| HealthScorer.HistoryIsLastScores | core/self_model/health_scorer.py:59-61 | in every reachable state a history is exactly its source's last scores |
| HealthScorer.ReportedTrend | core/self_model/health_scorer.py:64-69 | every trend ever reported is in [-1, 1] after rounding, and not negative while retained scores do not fall |
| HealthScorer.TrendIsBestLine | core/self_model/health_scorer.py:87-107 | in every reachable state a source's trend is the slope of the best line through as many of its last scores as both windows admit |
| HealthScorer.ScoreBalances | core/self_model/health_scorer.py:49-53 | the unrounded score is the one number around which the metrics, cut off at zero and one, balance |
| AnomalyDetector.AnomalyDetector.Update | core/self_model/anomaly_detector.py:50-104 | the windows and events of one update, metric by metric, each value judged against those before it |
| AnomalyDetector.WindowIsLastValues | core/self_model/anomaly_detector.py:57-63 | each window is exactly the last values of its own stream, independently of other keys |
| AnomalyDetector.SeverityAffineInvariant | core/self_model/anomaly_detector.py:65-88 | a window of a x + b, a not zero, is judged like the window of x |
| AnomalyDetector.AffineInvariance | core/self_model/anomaly_detector.py:57-104 | feeding a x + b instead of x to one field leaves every step's list of sources, fields and severities unchanged |
| AnomalyDetector.JudgedByZScore | core/self_model/anomaly_detector.py:65-88 | a value is critical, a warning or neither by its z-score against mean and sample standard deviation of the values before it, for any thresholds; no event for a short or constant window |
| AnomalyDetector.EventReports | core/self_model/anomaly_detector.py:91-102 | an event names its stream and gives value and mean to within half a unit of the fourth decimal |
| Divergence.DivergenceCalculator.Sample | core/simulation/divergence.py:46-86 | stores the rounded mean absolute difference over the shared numeric keys; other forks stay |
| Divergence.DivergenceCalculator.Compute | core/simulation/divergence.py:88-130 | the recency-weighted mean and slope of a fork's samples, zero without samples |
| Divergence.DivergenceCalculator.Clear | core/simulation/divergence.py:132-134 | forgets exactly one fork |
| Divergence.UniformGap | core/simulation/divergence.py:68-77 | snapshots whose shared numbers all differ by d diverge by the absolute value of d, rounded |
| Divergence.FlagsAreNumbers | core/simulation/divergence.py:58-65 | booleans are compared as one and zero, numbers as they are, and nothing else is compared |
| Divergence.WeighPoints | core/simulation/divergence.py:112-119 | the loop weighs the k-th of n points by decay^(n - k) |
| Divergence.NewestInFull | core/simulation/divergence.py:112-119 | taking up one more point multiplies the weight of every older one by the decay and counts the new one in full |
| Divergence.DivergenceBetween | core/simulation/divergence.py:112-130 | for every positive decay the reported divergence lies between any grid bounds of the points, so between the least and the greatest, rounding included |
| Divergence.ConstantDivergence | core/simulation/divergence.py:112-130 | a constant point divergence is reported as it is, with no trend, whatever the decay |
| Divergence.TrendIsBestLine | core/simulation/divergence.py:121-130 | the reported trend is the rounded slope of the best line through the points |
| SafetyPreflight.SetPathLaws | core/simulation/intervention.py:39-83 | a mutation succeeds exactly on existing paths, is read back, and setting the old value undoes it |
| SafetyPreflight.SimulationSeen | core/simulation/safety_preflight.py:95-98 | a simulation replaces the node health and the coherence index of the twin and nothing else |
| SafetyPreflight.SafetyPreflight.Evaluate | core/simulation/safety_preflight.py:63-148 | the verdict, denied exactly when it was before and allowed exactly when it was and the divergence stays within the threshold, one tick, no samples left for its own fork and all others unchanged; nothing is touched when the path does not exist |
| SafetyPreflight.UnchangedActual | core/simulation/safety_preflight.py:102-109 | with an unchanged actual snapshot the reported divergence is the single point divergence, whatever decay, cycles and sample limit |
| AgentConfig.DeepMerge | core/agent_config.py:330-337 | the loop computes the tree merge |
| AgentConfig.MergeTreesAt | core/agent_config.py:330-337 | key by key: what one side holds stays, two objects merge, otherwise the override wins |
| AgentConfig.MergeIdempotent | core/agent_config.py:330-337 | merging a tree with itself changes nothing |
| AgentConfig.OverrideOnce | core/agent_config.py:330-337 | applying the same override twice is applying it once |
| AgentConfig.CoveredVanishes | core/agent_config.py:330-337 | the base disappears from a merge exactly when the override covers it |
| AgentConfig.MergeAssociative | core/agent_config.py:330-337 | the merge is associative exactly where a leaf between two objects loses nothing |
| AgentConfig.SameShapeAssociates | core/agent_config.py:330-337 | in particular when no key is a leaf in one tree and an object in the next |
| AgentConfig.LeafBetweenObjects | core/agent_config.py:330-337 | three trees on which the merge is not associative |
| AgentConfig.LoadConfigData | core/agent_config.py:300-314 | the loader terminates on every finite set of files and computes the loading function, error cases included |
| AgentConfig.LoadingCharacterized | core/agent_config.py:300-314 | for every set of files loading succeeds if and only if the extends chain reaches a root, with the fold of the merge from that root down; reports a circle if and only if the chain revisits a path; and reports another error if and only if the chain comes to a file with that defect |
| AgentConfig.EndUnique | core/agent_config.py:300-314 | the chain ends at one height only, so the root and that fold are unique |
| AgentConfig.OwnSettingsHold | core/agent_config.py:300-314 | what loading gives has no extends entry, and every other setting of the file itself: leaves as they are, objects as objects |
| Rounding.Nearest | core/planner/calibration.py:54-55 | the nearest integer, ties to the even one |
| Rounding.QuantizeIdentity | core/coherence/propagation.py:86 | rounding changes a number exactly when it is off the decimal grid |
| Rounding.QuantizeError | core/planner/forecast.py:85 | rounding moves a number by at most half a unit |
| Rounding.QuantizeMonotone | core/coherence/propagation.py:86 | rounding keeps order |
| Rounding.QuantizeOdd | core/coherence/do_operator.py:75-77 | rounding commutes with negation |

## Left out

- PlanTree.PlanTree.UpdateConfidence: an unknown id, on which the program raises, is modelled as an empty result; called directly on a completed or abandoned thread it may change it, so terminality is stated for runs in which only the feedback loop updates confidence, as in the program.
- PlanTree.PlanTree.Complete: an unknown id, on which the program raises, is modelled as an empty result; update times are not modelled.
- CoherenceIndex.CoherenceIndexCalculator.Compute: the report's timestamp is not modelled.
- Daemon.CentroidDaemon.RunCycles: the daemon with forecast and feedback enabled, started without saved calibration, threads or pending forecasts for its queue length; the scheduler's waiting and signals are left out.
- PlanTree.PlanTree.AddThread: creation and update times are not modelled.
- FeedbackLoop.ForecastFeedbackLoop.ScoreForecast: `calibration_updated` is always true, because the disk failure that makes it false is not modelled.
- Daemon.CycleRunner.Run: models the forecast and feedback part of a cycle without errors; sensing, the self model, the coherence tick, the journal entry and the isolation of a module's exceptions are left out. The calibration store is always present.
- HealthScorer.HealthScorer.Update: a status does not carry its last update time.
- Forecasting.ForecastGenerator.GenerateOne: a forecast does not carry its generation time.
- AnomalyDetector.AnomalyDetector.Update: an event does not carry the standard deviation, the z-score and the time; severities compare squares (`AnomalyDetector.JudgedByZScore` is the comparison with the root).
- MemoryStore.MemoryStore.Search: provenance weight and time of last retrieval are left out; a hit reports the retrieval count at the moment it is produced, while the program's hits share one record that later hits on the same document update.
- MemoryStore.MemoryStore.Tail: the log is a list of events, so blank and malformed lines do not occur.
- Retrieval.ComputeSalience: lower-casing maps ASCII letters only.
- MemoryPyramid.MemoryPyramid.Compact: ages are a parameter, the same for a whole compaction; the program reads the clock once per entry.
- SafetyPreflight.SafetyPreflight.Evaluate: what the coherence graph's simulation reports is a parameter, absent when there is no graph or it fails; the reason text is left out.
- AgentConfig.LoadConfigData: path resolution is a parameter and paths are taken to be canonical; reading and parsing a file is its result.
- Calibration records, plan threads, forecasts and index entries are values held in maps and lists, so that a caller mutating a record it was handed is not captured.
- Persistence: JSON and YAML files, atomic renames, directory creation, timestamps, uuid generation.
- Floating-point rounding errors: arithmetic is exact apart from the decimal rounding the program performs.
- Text processing: tokenization, stop words, secret patterns; the tokenizer is a parameter.
- Parsing and validation of configuration sections, of graph definitions and of thresholds.
- `dense_cosine`, `system_health_ratio` and the other scorers and decision tables (policy, router, priority, identity), one formula or one branch each.
- The coherence graph's orchestration of propagator, index and do-operator over the world snapshot.
- Model providers, embeddings, fusion, evaluation probes, command lines and examples.
