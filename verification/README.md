# Argo Rollouts in Dafny

A model of the stateful cores of the Argo Rollouts controller, with proofs about single operations and about whole
runs. `dafny verify dfyconfig.toml` checks everything.

- **AnalysisRun engine**: `AnalysisTypes`, `MetricLife` (one metric over every sequence of reconciles) with
  `MetricOutcomes`, `AnalysisRuns` (the controller as a class), `AnalysisRunProperties` and `AnalysisRunOutcomes` (whole
  runs), `Interleaving` (the measuring goroutines), `WakeUp`.
- **Promotion**: `Stages`, `Rollback` with `RollbackOutcomes`, `PauseContexts` with `PauseOutcomes`, `CanaryPromotion`
  with `CanaryOutcomes`, `CanaryPromotionProperties`, `CanaryPauseProperties` and `CanaryExposure`, `BlueGreen` with
  `BlueGreenOutcomes`, `BlueGreenProperties`, `BlueGreenAborts` and `BlueGreenRuns`, `RolloutDurations` and
  `RolloutDurationProperties`.
- **Capacity**: `ReplicaSets`, `CanaryScaleDown`, `BlueGreenScaleDown`, `TrafficRouting`, `TrafficRoutingProperties`,
  `TrafficWeights`, `PodRestart`.
- **Lists and graphs**: `Templates`, `CollisionCounter`, `StepPlugins` with `StepPluginOutcomes`, and `Lists`, `Sorting`
  and `Prelude` below them.

An operation that updates state in the source is a method of a class (or a method with a loop), tied to a function
or relation of the state it started from; what the source promises is then proved about that function, or about every
run of such steps. The modules named for outcomes, and `TrafficWeights`, say what a step comes to from what it found
alone, without the predicates the controller decides with; the results about runs are stated in their terms. A run is a
list of events: reconciles with arbitrary observations, lost patches, and user actions. Kubernetes, metric providers,
traffic routers and plugins are parameters that answer as they like.

## Assumptions

- A metric provider sets a finish time only on a completed measurement; specification and arguments of an AnalysisRun
  do not change while it runs. Metric limits are those `utils/analysis/factory.go` lets through.
- Times are whole seconds. The clock of duration tracking never goes back.
- Only the controller writes the selector of the active service.
- Pod hashes, step hashes and run specifications are compared as values: equal hashes mean equal contents.
- A ReplicaSet that is scaled down loses pods that are not available first. Revision annotations are numbers.
- Plugin statuses refer to steps that exist, and those of plugin steps carry the plugin's name (a change of the steps
  clears them).

## Findings

Where the code does not do what one might expect, the model follows the code and a lemma says exactly when.

- The step index can end one beyond the steps (`CanaryPromotionProperties.IndexLeavesSteps`, `IndexBeyondEnd`). After a
  rollback within the window, traffic routing then reads a step that does not exist for as long as some but not all
  canary pods are available, and fails at run time (`RoutingFailsIffOutrun`, with the run `RollbackOutrunsSteps`); the
  scaling that would add the missing pods comes after it in the pass (`Stages.ScalingComesAfterTraffic`).
- Traffic routing also fails at run time when a full promotion with dynamic scaling divides by 0 replicas
  (`TrafficRoutingProperties.WeightUnlessFailure`, `PromotionOfNothingFails`), and when a router cannot yet verify the
  maximum weight while no step index is recorded (`RoutersFailIff`, `RoutingCanFailIff`, `UnverifiedPromotionFails`).
- A full promotion with dynamic scaling can ask for more than the maximum weight, and an abort can keep it
  (`TrafficRoutingProperties.WeightWithinBounds`, `OvershootExample`).
- While a canary is paused for an inconclusive analysis, a pause step without a duration counts as completed, so the
  rollout passes it without any user (`CanaryPauseProperties.OtherPauseCompletesStep`, `InconclusiveSkipsPause`).
- A changed template can leave the preview trip-wire set, although the comment on it says it is reset
  (`BlueGreenProperties.CheckpointSurvivesChange`); it then replaces the pause that manual promotion asks for
  (`BlueGreenRuns.WireOutlivesTemplate`). It can also be set while the rollout is paused for an inconclusive analysis, with
  nobody resuming it (`BlueGreenProperties.InconclusivePauseSetsWire`, `BlueGreenRuns.WireSetDuringPause`).
- When the stable ReplicaSet of a blue-green rollout is deleted during an abort, a later template can become stable on the
  post-promotion analysis of another: exactly when the pass that promotes it meets a change of the template
  (`BlueGreenProperties.StableMovesSafely`, `BlueGreenRuns.LostStableBorrowsAnalysis`).
- An attempt that begins in the second its predecessor began shares its start, and its metrics cannot be told apart;
  when nothing else differs the first is emitted without any patch (`RolloutDurationProperties.StartsDistinctIff`,
  `SameSecondCountsTwice`).
- An abort that is added and removed in one reconcile is recorded although the stages were told there is none
  (`PauseContexts.AbortAgreesIff`, `PromotePastDeadline`).
- A pause reason asked for twice is recorded twice (`PauseContexts.ReasonsDistinctIff`, `PauseForTwoAnalyses`).
- A measurement in flight that names no time to resume at is resumed by every reconcile, but the wake-up time takes no
  notice of it (`WakeUp.SleepIsSafe`, `PolledRunHasNoWakeUp`).

## Model

| member | source | states |
|---|---|---|
| `AnalysisTypes.Find` | utils/analysis/helpers.go:148-155 | Looking a result up gives the first one stored under the name, and nothing exactly when there is none |
| `AnalysisTypes.FindPut` | utils/analysis/helpers.go:158-166 | Storing a result changes what is found under its own name and under no other name |
| `AnalysisTypes.PutDistinct` | utils/analysis/helpers.go:158-166 | Storing never leaves two results under one name |
| `MetricLife.Trim` | analysis/analysis.go:775-796 | Trimming keeps exactly the newest measurements, as a suffix of at most the limit |
| `MetricLife.PlaceHistory` | analysis/analysis.go:417-423 | A new measurement is appended and a resumed one replaces the measurement in flight, so the completed history grows by one exactly when the measurement completed, and only the last can be in flight |
| `MetricLife.BumpCounters` | analysis/analysis.go:378-407 | One completed measurement moves the seven counters exactly as recounting the longer history from scratch does |
| `MetricLife.BumpLimits` | analysis/analysis.go:385-406 | One completed measurement moves exactly one limited counter, by one, so limits not exceeded before are exceeded by at most one, in at most one of the three |
| `MetricLife.MeasureInv` | analysis/analysis.go:354-428 | Measuring keeps counters, history and limits in step, for every answer of an honest provider |
| `MetricLife.AssessInv` | analysis/analysis.go:579-655 | A metric that assessment leaves open has exceeded no limit and not reached its count |
| `MetricLife.ReachableInv` | analysis/analysis.go:176-250 | Every sequence of reconciles keeps the invariant of a metric |
| `MetricLife.TrailingIsBlock` | analysis/analysis.go:385-406 | The consecutive counters stand for a block at the end of the history: its members are in the phase and the one before it is not |
| `MetricLife.HistoryRefinement` | analysis/analysis.go:378-420 | In every reachable state Count = Successful + Failed + Inconclusive, Count + Error = measurements ever completed, the consecutive counters are the trailing blocks of the full untrimmed history, and what is stored is a nonempty suffix of it |
| `MetricLife.LimitOrderNeverDecides` | analysis/analysis.go:658-687 | When a metric is assessed after a measurement, at most one of the three limits is exceeded, by exactly one, so the checks may override each other in any order with the same outcome |
| `MetricLife.BoundedWork` | analysis/analysis.go:224-229 | With effective count n >= 1 and consecutive-error limit e, Count <= n, Error <= Count * e + ConsecutiveError, and at most n * (e + 1) measurements ever complete; a metric still open has completed fewer |
| `MetricLife.BudgetArithmetic` | analysis/analysis.go:385-406 | The arithmetic behind the bound: errors are paid for by counted measurements |
| `MetricLife.MeasureSpends` | analysis/analysis.go:378-407 | Every answer that completes a measurement uses up one unit of that bound and any other answer none, so the bound is a termination measure |
| `MetricLife.ClosedForGood` | analysis/analysis.go:182-184 | A completed metric is never measured again, and only its stored history may be trimmed |
| `MetricOutcomes.CountersTell` | analysis/analysis.go:658-687 | The limit checks on the counters say what the specification and the measurements themselves say: how many newest measurements are errors or successes, and how many in all failed or are inconclusive |
| `MetricOutcomes.PhaseIsEarned` | analysis/analysis.go:579-687 | Over every sequence of passes an open metric gets exactly the phase its full history earns it: each limit its own, Successful on enough consecutive successes, at the count Successful, or Inconclusive, or Failed with the failure limit off, when a success limit was not reached, Successful when terminating with nothing in flight, and otherwise Running, or Pending without a measurement |
| `MetricOutcomes.AnswerIsTaken` | analysis/analysis.go:354-413 | The measurement that enters the history is the one the provider gave, with a finish time once it is completed; a missing provider gives an error |
| `AnalysisRuns.IsWorse` | utils/analysis/helpers.go:49-71 | The scan over the status order decides worse exactly as the ranks do, with unlisted phases counting as best |
| `AnalysisRuns.AnalysisRun.Terminating` | utils/analysis/helpers.go:84-101 | A run is terminating when asked to, or when a metric outside dry-run mode is Failed, Error or Inconclusive |
| `AnalysisRuns.AnalysisRun.GetResult` | utils/analysis/helpers.go:148-155 | The loop finds the first result of a name |
| `AnalysisRuns.AnalysisRun.SetResult` | utils/analysis/helpers.go:158-166 | The loop replaces the first result of a name in place, or appends |
| `AnalysisRuns.AnalysisRun.GenerateMetricTasks` | analysis/analysis.go:176-250 | The tasks are, in order, those every metric is due |
| `AnalysisRuns.AnalysisRun.RunMeasurements` | analysis/analysis.go:312-431 | The results after the tasks ran one after another |
| `AnalysisRuns.AnalysisRun.AssessMetricStatus` | analysis/analysis.go:474-492 | One metric's phase is brought up to date, and returned; `AnalysisRunOutcomes.RunPhaseIsEarned` says which phase that is |
| `AnalysisRuns.AnalysisRun.AssessRunStatus` | analysis/analysis.go:436-573 | The verdict is completed exactly when the run is terminating or every metric completed; then it is the worst phase of the completed metrics outside dry-run mode and Successful if there is none |
| `AnalysisRuns.WorstVoteStep` | analysis/analysis.go:493-529 | Folding one metric into the worst status so far keeps it the maximum over the votes seen |
| `AnalysisRuns.AnalysisRun.GarbageCollect` | analysis/analysis.go:762-800 | Results are trimmed in order; a missing provider skips its result and a failing one stops the sweep, and success means every result that was too long was trimmed |
| `AnalysisRuns.AnalysisRun.Reconcile` | analysis/analysis.go:43-140 | The whole new status of a run after one reconcile, error endings included |
| `AnalysisRunProperties.TasksForNamed` | analysis/analysis.go:176-250 | Scheduling makes at most one task for a metric: the one that metric is due |
| `AnalysisRunProperties.RunTasksFind` | analysis/analysis.go:312-431 | After the tasks ran, each metric has the result of its own task, computed from what was stored before any ran |
| `AnalysisRunProperties.AssessAllFind` | analysis/analysis.go:436-489 | Each metric gets its own assessment whatever its place in the list |
| `AnalysisRunProperties.EveryMetricLives` | analysis/analysis.go:43-140 | Seen by one metric, every run of the controller is a run of that metric's life, whose history is what the events made the controller measure |
| `AnalysisRunProperties.RunCountersRefineHistory` | analysis/analysis.go:378-420 | Over every run with lost patches and termination requests, the counters are the tally of the measurements that the stored reconciles took, from the answers the provider gave, and what is kept is the newest part of these |
| `AnalysisRunProperties.RunWorkIsBounded` | analysis/analysis.go:224-229 | Over every run at most count * (error limit + 1) measurements that complete are taken |
| `AnalysisRunProperties.RunLimitsJustExceeded` | analysis/analysis.go:658-687 | Over every run no limit is exceeded by more than one, nor two limits of one metric |
| `AnalysisRunProperties.RunNamesDistinct` | utils/analysis/helpers.go:158-166 | No run ever stores two results under one name |
| `AnalysisRunProperties.VerdictDependsOnVotes` | analysis/analysis.go:436-573 | Neither the order of the metrics nor anything a dry-run metric measured can change a completed verdict |
| `AnalysisRunProperties.UnhealthyTerminates` | utils/analysis/helpers.go:84-101 | A run is terminating exactly when asked to or when a metric found by name outside dry-run mode is unhealthy |
| `AnalysisRunProperties.UnhealthyReconcile` | analysis/analysis.go:211-214 | A reconcile that meets an unhealthy metric starts no measurement and completes the run |
| `AnalysisRunProperties.UnhealthyEndsRun` | analysis/analysis.go:436-573 | Once a metric outside dry-run mode is unhealthy no later reconcile starts a measurement, and the next one completes the run |
| `AnalysisRunOutcomes.TaskIsDueWhen` | analysis/analysis.go:176-250 | When exactly a metric is measured or resumed: the initial delay, the interval, 10 seconds after an error or without an interval, the count, and nothing new while terminating |
| `AnalysisRunOutcomes.CompletedIsNeverDue` | analysis/analysis.go:182-184 | A completed metric has no task |
| `AnalysisRunOutcomes.ValidIsWellFormed` | utils/analysis/factory.go:149-218 | The limits a run may start with, from its specification |
| `AnalysisRunOutcomes.RunIsRejectedWhen` | analysis/analysis.go:57-98 | A reconcile ends the run in Error and keeps its results exactly when arguments, specification or secrets do not resolve |
| `AnalysisRunOutcomes.CompletedRunStays` | analysis/analysis.go:43-51 | A completed run is left alone |
| `AnalysisRunOutcomes.WorstVoteIsVerdict` | utils/analysis/helpers.go:49-71 | The folded worst status is Failed if any metric that counts failed, else Error, else Inconclusive, else Successful |
| `AnalysisRunOutcomes.MeasuringKeepsTermination` | utils/analysis/helpers.go:84-101 | Whether a run is terminating is decided by the reconciles before: measuring turns no metric unhealthy |
| `AnalysisRunOutcomes.RunPhaseIsEarned` | analysis/analysis.go:436-492 | Over every run each reconcile gives each open metric exactly the phase that the measurements the run took for it have earned by then |
| `AnalysisRunOutcomes.RunVerdict` | analysis/analysis.go:493-573 | Over every run a reconcile completes the run exactly when it was over before or every metric is completed now, with the worst phase among the metrics outside dry-run mode |
| `AnalysisRunOutcomes.CollectionKeepsNewest` | analysis/analysis.go:762-800 | A collection without errors leaves every metric its newest measurements, as many as its retention, 10 by default, allows |
| `AnalysisRunOutcomes.CollectionOutcome` | analysis/analysis.go:775-800 | What a collection does to each result: the newest measurements if it is too long, its metric is known and the provider collects; unchanged otherwise, with a missing provider, and from the first failing one on |
| `Interleaving.RunKeepsView` | analysis/analysis.go:367-428 | One critical section of one goroutine disturbs no other goroutine's metric |
| `Interleaving.InterleavingIsIrrelevant` | analysis/analysis.go:312-431 | Every interleaving of the measuring goroutines that finishes stores for every name what running the tasks one after another stores: no update is lost |
| `Interleaving.EveryScheduleEnds` | analysis/analysis.go:326-428 | No schedule is longer than two critical sections per task, and it is that long exactly when every goroutine has finished, which is what the wait is for |
| `WakeUp.CalculateNextReconcileTime` | analysis/analysis.go:691-759 | The wake-up time is the earliest time some metric waits for, and absent exactly when none waits |
| `WakeUp.WokenUpForWork` | analysis/analysis.go:691-759 | At every moment after the wake-up time a metric that waited for it has a task |
| `WakeUp.QuietUntilWakeUp` | analysis/analysis.go:176-250 | When every metric is completed, at its count, or waiting, no task is due at any moment before the wake-up time |
| `WakeUp.FinishedMetricRepeats` | analysis/analysis.go:740-747 | A valid metric whose last measurement finished without error has reached its count or has an interval |
| `WakeUp.EveryMetricIsSettled` | analysis/analysis.go:691-759 | After a reconcile that left the run going every metric is settled or polled: the two places where the source expects never to arrive are never reached |
| `WakeUp.SleepIsSafe` | analysis/analysis.go:691-759 | After such a reconcile no task is due at any moment before the wake-up time exactly when no measurement in flight lacks a time to be resumed at |
| `WakeUp.PolledRunHasNoWakeUp` | analysis/analysis.go:720-727 | A run that goes on without a wake-up time although its metric has a task at every moment |
| `CanaryScaleDown.CanaryScaler.CleanupUnhealthyReplicas` | rollout/replicaset.go:314-344 | Old ReplicaSets, oldest first, are brought down to their available replicas until a request fails or more replicas are available than asked for |
| `CanaryScaleDown.CanaryScaler.DrainOldReplicaSets` | rollout/canary.go:128-181 | The greedy loop and the number of replicas it removed |
| `CanaryScaleDown.CanaryScaler.ScaleDownOldReplicaSetsForCanary` | rollout/canary.go:100-181 | Cleanup, budget and drain in descending revision order, with every ending and the returned count |
| `CanaryScaleDown.CleanupKeepsAvailability` | rollout/replicaset.go:314-344 | Cleanup never costs an available pod, and when it succeeds every replica left is available |
| `CanaryScaleDown.DrainIsExact` | rollout/canary.go:137-178 | The drain removes at most the budget, and without a failing request exactly min(sum of replicas, budget) |
| `CanaryScaleDown.DrainIsPrefix` | rollout/canary.go:128-178 | What is removed is a fully drained prefix and at most one ReplicaSet in part; the rest is untouched |
| `CanaryScaleDown.ScaleDownIsExactAndSafe` | rollout/canary.go:107-113 | Available pods never drop below min(before, minAvailable), whatever fails; without errors they end exactly at minAvailable or at what the other ReplicaSets have |
| `BlueGreenScaleDown.BlueGreenScaler.ScaleDownDelayHelper` | rollout/replicaset.go:346-384 | The counter, the size to keep and the annotation for one ReplicaSet, and the one way it fails |
| `BlueGreenScaleDown.BlueGreenScaler.ScaleDownOldReplicaSetsForBlueGreen` | rollout/bluegreen.go:170-217 | The counter-threading loop gives every ReplicaSet what its place among the candidates alone says; nothing happens while held back |
| `BlueGreenScaleDown.KeptWithinLimit` | rollout/replicaset.go:346-384 | Among any newest part of the list at most the limit keep replicas |
| `BlueGreenScaleDown.AtMostLimitKept` | rollout/bluegreen.go:170-217 | After a complete pass at most the limit of unreferenced old ReplicaSets have replicas, all among the newest that many candidates; referenced ones are untouched |
| `BlueGreenScaleDown.DeadlineDecides` | rollout/replicaset.go:363-381 | A candidate is gone exactly when it is beyond the limit, past its deadline or unreadable; otherwise it keeps its size, or the rollout's size until the deadline |
| `BlueGreenScaleDown.EachIsScaled` | rollout/replicaset.go:346-445 | What a pass does to each ReplicaSet: untouched while a recorded hash or a service selects it or a service cannot be read; gone behind as many free ones as the limit allows; otherwise a new deadline, the rollout's size until its deadline, or gone after it |
| `ReplicaSets.NewestFirst` | utils/replicaset/replicaset.go:573-594 | The order of the model is the comparison by revision number, reversed |
| `TrafficRouting.FindLastWeight` | rollout/trafficrouting.go:252-258 | The backward search finds the weight of the last setWeight step, 0 without one, and fails at run time when it starts behind the last step |
| `TrafficRouting.FindNextLowerStep` | utils/replicaset/canary.go:540-551 | The backward search finds the last setWeight step that fewer pods than given can carry |
| `TrafficRouting.CalculateWeightStatus` | rollout/trafficrouting.go:413-436 | Recorded canary, stable and additional weights always sum to the maximum, and modified means they differ from those recorded |
| `TrafficRouting.TrafficContext.CalculateWeightOnAbort` | rollout/trafficrouting.go:360-395 | The weight while aborted or going back to stable |
| `TrafficRouting.TrafficContext.CalculateDesiredWeight` | rollout/trafficrouting.go:192-269 | The desired weight of every branch, none where computing it fails at run time, which branches share with an experiment, and when the calls of the branch succeed |
| `TrafficRouting.TrafficContext.RecordWeights` | rollout/trafficrouting.go:319-328 | The recorded weights are those of this reconcile, modified or not |
| `TrafficRouting.TrafficContext.Route` | rollout/trafficrouting.go:175-355 | One router is asked only for the desired weight, only while the stable side carries the rest, and how asking it ends |
| `TrafficRouting.TrafficContext.ReconcileTrafficRouting` | rollout/trafficrouting.go:161-358 | Over all routers: what is asked for, what is recorded, and how the pass ends |
| `TrafficRoutingProperties.RoundTripLoses` | rollout/trafficrouting.go:149-151 | floor(floor(Max * a / R) * R / Max) <= a |
| `TrafficRoutingProperties.DerivedWeightPasses` | rollout/trafficrouting.go:142-158 | A share no larger than the available stable pods stand for passes the availability check, whatever the threshold |
| `TrafficRoutingProperties.LoweringIsNeverBlocked` | rollout/trafficrouting.go:371-395 | With dynamic stable scaling an abort that wants to lower the canary's share always passes that check |
| `TrafficRoutingProperties.CarriedByAvailablePods` | rollout/trafficrouting.go:271-275 | Without a progress threshold every weight is asked for with at least floor((Max - w) * R / Max) stable pods available |
| `TrafficRoutingProperties.AbortNeverRaises` | rollout/trafficrouting.go:360-395 | While aborted or fully promoted the desired weight lies between 0 and the recorded one, also when that is above the maximum |
| `TrafficRoutingProperties.AbortCompletes` | utils/replicaset/canary.go:518-555 | Once stable is complete and the canary drained, or on its own delay, an abort asks for weight 0 and passes the check |
| `TrafficRoutingProperties.WeightWithinBounds` | rollout/trafficrouting.go:192-269 | The desired weight is never negative, and at most the maximum unless a full promotion with dynamic scaling has more canary pods than the maximum stands for, or a recorded weight above the maximum is kept; then it is not |
| `TrafficRoutingProperties.OvershootExample` | rollout/trafficrouting.go:238-239 | Five canary pods for a rollout of four give a weight of 125 of 100, which an abort keeps while half of the stable pods are missing |
| `TrafficRoutingProperties.WeightUnlessFailure` | rollout/trafficrouting.go:192-269 | Computing the weight fails at run time exactly when it looks at a missing ReplicaSet, divides by 0 replicas, or searches from behind the last step |
| `TrafficRoutingProperties.RoutersFailIff` | rollout/trafficrouting.go:175-355 | Asking routers fails at run time exactly when computing the weight does, or when the maximum weight goes out without a recorded step index and the routers, asked in turn and answering well, come to one that cannot yet verify it |
| `TrafficRoutingProperties.RoutingCanFailIff` | rollout/trafficrouting.go:349 | Some routers make a situation fail at run time exactly when computing its weight does, or when the maximum weight goes out without a recorded step index while a stable ReplicaSet exists |
| `TrafficRoutingProperties.PromotionOfNothingFails` | rollout/trafficrouting.go:239 | A full promotion of a rollout scaled to 0 replicas, with a canary pod still available, divides by 0 |
| `TrafficRoutingProperties.HealthyRoutersEndWell` | rollout/trafficrouting.go:175-355 | Any number of healthy routers end without error exactly when computing the weight does not fail |
| `TrafficRoutingProperties.UnverifiedPromotionFails` | rollout/trafficrouting.go:349 | A full promotion without steps whose weight is not yet verified fails at run time |
| `TrafficRoutingProperties.WeightsNeverNegative` | rollout/trafficrouting.go:161-358 | In every run no recorded canary weight is negative |
| `TrafficRoutingProperties.ShareNeverGrows` | rollout/trafficrouting.go:161-358 | In every run of a rollout, the recorded canary weight never increases while the rollout stays aborted or back on stable, however availability and specification move and whatever fails |
| `TrafficRoutingProperties.AbortFollowsStable` | rollout/trafficrouting.go:360-395 | With dynamic stable scaling a reconcile without failures records exactly the weight the abort asks for |
| `TrafficWeights.WeightFollowsSteps` | rollout/trafficrouting.go:247-269 | While an update progresses the weight is that of the last setWeight step up to the current one, before the current one while the canary lacks pods, 0 without one, and the maximum behind the last step |
| `TrafficWeights.NothingToShare` | rollout/trafficrouting.go:222-233 | A canary without available pods, or without steps and full promotion, gets no traffic |
| `TrafficWeights.PromotedInFull` | rollout/trafficrouting.go:234-246 | A full promotion with dynamic scaling gives the canary the floor of the maximum times its part of the pods; with a fixed stable side it keeps the recorded weight |
| `TrafficWeights.WithdrawnAtOnce` | rollout/trafficrouting.go:198-221 | An abort with a fixed stable side, and a completed promotion, take all traffic off at once |
| `TrafficWeights.WithdrawnInSteps` | utils/replicaset/canary.go:518-555 | With dynamic scaling an abort steps down to the last setWeight that fewer pods carry than stable lacks or the canary has, waits while stable cannot carry the rest, and never raises the share |
| `TrafficWeights.SharesOutcome` | rollout/trafficrouting.go:222-269 | Experiments share the traffic exactly while the canary is unavailable or on its way through the steps |
| `TrafficWeights.HashOutcome` | rollout/trafficrouting.go:182-197 | The canary's traffic goes to the desired hash, or to the one before on the way back to stable |
| `TrafficWeights.RouteOutcome` | rollout/trafficrouting.go:192-355 | How asking a router ends, from which calls are made and how they are answered |
| `TrafficWeights.RecordedFollowsSteps` | rollout/trafficrouting.go:247-328 | Over every run a reconcile that progresses and ends well records exactly that weight, shared out to the maximum, unless the stable side has too few pods, and then nothing changes |
| `CanaryExposure.ExposureFollowsSteps` | rollout/trafficrouting.go:247-269 | Over every run of the steps that nothing forced, the weight asked for is that of the last setWeight step among those completed one at a time in order, and the current one once the canary has its pods |
| `PodRestart.PodRestarter.GetAvailablePodCount` | rollout/restart.go:177-186 | Available pods that are not being deleted are counted |
| `PodRestart.PodRestarter.EvictOldPods` | rollout/restart.go:95-125 | Only old pods that are not being deleted are evicted, at most the budget, and without error the budget is used up or nothing is left to evict |
| `PodRestart.PodRestarter.Reconcile` | rollout/restart.go:63-138 | One pass: the budget, what is evicted, and that the restart is recorded exactly when every old pod was evicted without error |
| `PodRestart.EvictionCost` | rollout/restart.go:94-125 | Evictions lower availability by at most one each |
| `PodRestart.AvailabilityKept` | rollout/restart.go:77-92 | After a pass at least min(available before, max(replicas, total) - max(1, maxUnavailable)) pods are available |
| `PodRestart.DeletingPodDelaysRecord` | rollout/restart.go:104-137 | An old pod already being deleted, or not evicted, keeps the restart from being recorded |
| `PodRestart.RestartOutcome` | rollout/restart.go:63-138 | The pass by its numbers: which pods are evicted, how many stay available, when eviction stops, and when the restart is recorded |
| `Lists.DedupKeepsFirsts` | utils/analysis/helpers.go:590-608 | Filtering keeps every name once, in the order of first appearance |
| `Templates.FilterUnique` | utils/analysis/helpers.go:590-608 | The loop with its set of seen names computes that list |
| `Templates.GetAnalysisTemplatesFromRefs` | rollout/analysis.go:509-553 | For acyclic references the recursion ends, succeeds exactly when every reachable template exists, and finds exactly the reachable ones, each once per scope |
| `Templates.ReachOne` | rollout/analysis.go:512-549 | A reference reaches its template and what that template's references reach, for chains of references of any length |
| `Templates.AppendOrUpdate` | utils/analysis/helpers.go:359-377 | One argument is appended, replaces a valueless one of its name, is ignored, or clashes |
| `Templates.FlattenStep` | utils/analysis/helpers.go:359-377 | One step keeps the combined list standing for all arguments so far, and fails exactly at the first conflict |
| `Templates.FlattenArgs` | utils/analysis/helpers.go:357-394 | Combining fails exactly when two arguments of one name carry different values; otherwise names are unique and in order of first appearance |
| `Templates.ChosenIsFirstValue` | utils/analysis/helpers.go:359-377 | The argument kept for a name is the first that carries a value, or the last when none does |
| `Templates.CommonValue` | utils/analysis/helpers.go:357-394 | Every value given for a name is the value of the combined argument |
| `Templates.FindArg` | utils/analysis/helpers.go:216-223 | The first place of a name |
| `Templates.MergeArgs` | utils/analysis/helpers.go:225-254 | The last value given for a name wins, unknown names are ignored, and it fails exactly when an argument keeps neither value nor source |
| `Templates.MergedIsLastGiven` | utils/analysis/helpers.go:225-254 | Each argument has the last value given for its name, the last source given without a value, and what it had where none was given; one behind another of its name stays |
| `CollisionCounter.NameInjective` | utils/analysis/helpers.go:262-288 | No name is tried twice |
| `CollisionCounter.TakenNamesFit` | utils/analysis/helpers.go:264-289 | More names than there are runs cannot all be taken, so the loop ends |
| `CollisionCounter.Cluster.CreateWithCollisionCounter` | utils/analysis/helpers.go:257-290 | Within |store| + 1 tries the call returns the first name that is free or holds an incomplete, equal run of the same owner, or the cluster's own error; the store changes only by the created run |
| `CollisionCounter.RepeatFindsSameRun` | utils/analysis/helpers.go:281-286 | With no deletions the same call later finds the same run exactly as long as it is not completed |
| `CollisionCounter.FirstFreeExists` | utils/analysis/helpers.go:264-289 | There is always a name among the first |store| + 1 that does not collide |
| `StepPlugins.StepPluginContext.UpdateStepPluginStatus` | rollout/stepplugin.go:215-237 | A status replaces the first of its index and operation in place or goes to the end, and whether the phase changed |
| `StepPlugins.UpdateKeepsKeys` | rollout/stepplugin.go:215-237 | Updates keep index and operation pairs distinct and in order |
| `StepPlugins.LookupByKey` | rollout/steps/plugin/plugin.go:236-244 | Among valid statuses a plugin finds its own by index and operation, and only that one |
| `StepPlugins.StepPluginContext.AbortSteps` | rollout/stepplugin.go:35-61 | The backward loop over the statuses as they were at its start: calls, added statuses, error; `StepPluginOutcomes.AbortCallsExactly` says which calls these are |
| `StepPlugins.AbortsInReverse` | rollout/stepplugin.go:35-61 | An error-free pass calls exactly the steps that ran and were not aborted, in reverse list order |
| `StepPlugins.AbortKeepsStatuses` | rollout/stepplugin.go:35-61 | Every status that was there stays as it was, in particular every Run entry, and keys stay distinct |
| `StepPlugins.CompensatedAll` | rollout/stepplugin.go:35-61 | Every step that had to be compensated gets an Abort entry |
| `StepPlugins.SecondAbortAddsNothing` | rollout/steps/plugin/plugin.go:168-180 | A second pass calls no plugin and adds no entry |
| `StepPlugins.StepPluginContext.GetStepToTerminate` | rollout/stepplugin.go:239-254 | The last running step unless a termination succeeded after it |
| `StepPlugins.StepPluginContext.TerminateStep` | rollout/stepplugin.go:64-88 | A full promotion asks that one step to terminate, and stores the answer |
| `StepPlugins.TerminatesOnce` | rollout/steps/plugin/plugin.go:118-130 | Once a termination was answered no later promotion asks a plugin again |
| `StepPlugins.StepPluginContext.IsStepPluginCompleted` | rollout/stepplugin.go:183-204 | A step is completed when its run is disabled or over, or was cut short, and nothing failed in this reconcile |
| `StepPlugins.StepPluginContext.FindCurrentStepStatus` | rollout/stepplugin.go:206-213 | The status of an index and operation |
| `StepPlugins.StepPluginContext.CleanStatusForRetry` | rollout/stepplugin.go:259-280 | Statuses are leftovers at step 0 unless step 0 is a plugin that has not completed |
| `StepPlugins.StepPluginContext.RunStep` | rollout/stepplugin.go:90-142 | The stored statuses, the call, the error and the abort of a normal reconcile |
| `StepPlugins.FinishedRunStays` | rollout/steps/plugin/plugin.go:57-61 | A run that has ended is not repeated |
| `StepPlugins.StepPluginContext.Reconcile` | rollout/stepplugin.go:30-142 | The three paths of a reconcile, which all keep the statuses valid |
| `StepPluginOutcomes.AbortCallsExactly` | rollout/steps/plugin/plugin.go:168-191 | An error-free pass calls Abort for exactly the Run entries that are enabled, running or successful, of plugin steps whose plugin is enabled, and without an Abort entry, in reverse order of their places, and stores each answer |
| `StepPluginOutcomes.AbortCallsEachOnce` | rollout/steps/plugin/plugin.go:168-191 | Each index is called at most once, and exactly when its run is to be compensated |
| `StepPluginOutcomes.AbortFailsWhen` | rollout/stepplugin.go:40-58 | A pass fails exactly when an entry of a run names a plugin step whose plugin does not resolve, or a plugin that is called answers with an invalid phase |
| `StepPluginOutcomes.TerminationCallsExactly` | rollout/steps/plugin/plugin.go:118-140 | A full promotion calls Terminate for the last run under way, if its enabled plugin was not asked before, and for nothing else |
| `StepPluginOutcomes.TerminationFailsWhen` | rollout/stepplugin.go:64-88 | When exactly a full promotion fails in its plugin |
| `StepPluginOutcomes.NothingRunningNothingCalled` | rollout/stepplugin.go:239-254 | With no run under way, or a termination that succeeded after it, a full promotion calls nothing |
| `StepPluginOutcomes.RunCallsExactly` | rollout/steps/plugin/plugin.go:45-75 | The plugin of the current step is called exactly while the rollout progresses, the plugin is enabled, has not ended and did not ask to wait |
| `StepPluginOutcomes.RunStoresExactly` | rollout/steps/plugin/plugin.go:45-115 | What is stored for the current step in every case of an answer |
| `StepPluginOutcomes.RunFailsWhen` | rollout/stepplugin.go:90-117 | When exactly a normal reconcile fails in its plugin |
| `StepPluginOutcomes.RunPassHolds` | rollout/stepplugin.go:90-142 | The statuses afterwards are those found, or none of an earlier attempt, with the stored one in its place |
| `StepPluginOutcomes.RunAbortsExactly` | rollout/stepplugin.go:119-141 | A normal reconcile aborts exactly when a plugin it called answers that it failed |
| `StepPluginOutcomes.CompletedIsNotCalled` | rollout/stepplugin.go:183-204 | A step not completed has its plugin called again; a completed one only if its run was disabled or cut short |
| `StepPluginOutcomes.LeftoversDroppedWhen` | rollout/stepplugin.go:259-280 | When exactly statuses of an earlier attempt are dropped |
| `Rollback.IsRollbackWithinWindow` | rollout/sync.go:1216-1245 | The loop counts the revisions between the desired and the stable ReplicaSet and compares them with the window |
| `RollbackOutcomes.FastTells` | rollout/sync.go:1204-1245 | A fast rollback goes to the stable hash, or to an older revision within the window or its scale-down delay, by the ages of the revisions |
| `CanaryOutcomes.StepLeftIff` | rollout/canary.go:229-337 | A reconcile that goes on moves the index by one exactly when the current step is done, told for each kind of step from what was found: weight and replica count reached and not unverified, experiment or step analysis Successful, plugin done, route steps at once, a pause over or resumed |
| `CanaryOutcomes.IndexStartsAnew` | rollout/canary.go:283-325 | Where every other reconcile leaves the index: 0, or the end after a promotion, at the stable hash, and for a change back within the window to an active ReplicaSet |
| `CanaryOutcomes.StableOutcome` | rollout/sync.go:1249-1278 | The desired ReplicaSet becomes stable exactly without a stable one, or with enough pods and no abort in effect, in a hurry, at the end of the steps, without steps, or back at the stable hash |
| `CanaryOutcomes.AbortOutcome` | rollout/pause.go:62-90 | When exactly a canary is aborted after a reconcile, and since when |
| `CanaryOutcomes.PausesOutcome` | rollout/pause.go:92-126 | Exactly which pauses a reconcile of a canary keeps, ends and adds, and when it clears them |
| `CanaryOutcomes.ScaledOutcome` | rollout/sync.go:273-318 | What a reconcile that only follows the replica count does to the status |
| `CanaryPromotion.CanaryRollout.SyncRolloutStatus` | rollout/canary.go:268-337 | The whole new promotion state after a canary reconcile, pauses and abort included, in every branch |
| `CanaryPromotion.CanaryRollout.Reconcile` | rollout/canary.go:20-28 | A complete reconcile: what its stages ask for and what the sync makes of it |
| `CanaryPromotionProperties.InvHolds` | rollout/canary.go:283-336 | In every run, while an update is under way that nothing forced, the index counts the steps completed in order since they last started anew |
| `CanaryPromotionProperties.StableMovesSafely` | rollout/sync.go:1321-1356 | Over every run the stable hash moves only to the desired hash, and only without a stable ReplicaSet, or with the new one available, no abort, and either a forced rollout (full promotion, rollback within the window, or an index a user wrote) or every step found done, as its kind demands, one at a time and in order since the steps last started anew |
| `CanaryPromotionProperties.IndexLeavesSteps` | rollout/canary.go:299-328 | The index ends beyond the steps exactly when a step completes in the reconcile that was forced past it, and then by one |
| `CanaryPromotionProperties.IndexBeyondEnd` | rollout/canary.go:299-328 | A concrete reconcile in which that happens |
| `CanaryPromotionProperties.RoutingFailsIffOutrun` | rollout/trafficrouting.go:250-258 | With some but not all canary pods available, traffic routing of the next pass fails at run time exactly when a rollback within the window forced the reconcile past the steps while it completed one |
| `CanaryPromotionProperties.RollbackOutrunsSteps` | rollout/canary.go:299-328 | A run of a new rollout that ends in such a status, and a situation in which traffic routing then fails |
| `CanaryPauseProperties.PauseInvHolds` | rollout/pause.go:92-126 | Over every run each pause was added by some reconcile, that of a step at the current step, and a status that says it was paused but has no pauses was just resumed |
| `CanaryPauseProperties.PauseStepLeft` | rollout/pause.go:195-213 | Over every run a pause step is left only after its own pause lasted its time, just after a paused rollout was resumed, or while the rollout is paused for other reasons |
| `CanaryPauseProperties.OtherPauseCompletesStep` | rollout/pause.go:195-201 | While a rollout is paused, a reconcile leaves an unlimited pause step exactly when none of the pauses is that of a step |
| `CanaryPauseProperties.InconclusiveSkipsPause` | rollout/canary.go:80-90 | A run in which an inconclusive analysis makes a rollout pass an unlimited pause step without any user |
| `Stages.Pipeline.RunStages` | rollout/stages.go:75-89 | The stages that run are a prefix of the order, up to the first that does not continue, and the status sync is skipped exactly when that one asks for it |
| `Stages.TemplateChangeKeepsTraffic` | rollout/stages.go:49-59 | A blue-green pass that meets a change of the template neither switches traffic nor reaches analysis; every other pass that syncs the status ran all stages in order |
| `Stages.ScalingComesAfterTraffic` | rollout/stages.go:33-47 | A canary pass that meets a change runs nothing else; one that scales has moved traffic and run the analysis before, so a failure in traffic routing keeps it from scaling |
| `BlueGreen.BlueGreenRollout.ReconcileActiveService` | rollout/service.go:94-121 | The selector of the active service after its stage |
| `BlueGreen.BlueGreenRollout.Reconcile` | rollout/bluegreen.go:24-37 | A pass through the stages with its possible early endings and a lost status |
| `BlueGreenOutcomes.RunsOutcome` | rollout/analysis.go:173-348 | Exactly which analysis runs a pass starts for the desired hash, keeps and drops |
| `BlueGreenOutcomes.SwitchOutcome` | rollout/service.go:94-121 | Where live traffic goes in every pass, from what the pass found |
| `BlueGreenOutcomes.StableOutcome` | rollout/sync.go:1280-1318 | When exactly a pass makes the desired hash stable, and what happens to a request for full promotion |
| `BlueGreenOutcomes.AbortOutcome` | rollout/analysis.go:152-171 | A pass leaves the rollout aborted exactly if the deadline asked for it, a recorded and counted run is Failed or Error, or a stored abort in effect is not overtaken by a promotion |
| `BlueGreenOutcomes.PausesOutcome` | rollout/bluegreen.go:97-158 | Exactly which pauses a pass keeps, ends and adds, and when it clears them |
| `BlueGreenOutcomes.CheckpointOutcome` | rollout/bluegreen.go:286-305 | When exactly the trip-wire of the preview is set after a pass |
| `BlueGreenAborts.FailureAborts` | rollout/analysis.go:159-169 | Over every run a configured pre- or post-promotion run that is recorded, not replaced, and Failed or Error aborts the rollout, and an Inconclusive one pauses it |
| `BlueGreenAborts.AbortHasCause` | rollout/analysis.go:152-171 | Over every run an abort that stands was asked for by a user or the progress deadline, or a recorded run of the hash of that pass had failed, and it stood since |
| `BlueGreenAborts.FailureGivesTrafficBack` | rollout/service.go:94-121 | Over every run, after a failed analysis and as long as the abort stands, every pass that reaches the switch unchanged, ready and saturated gives live traffic to the stable hash: no pause is left in its way |
| `BlueGreenAborts.AbortStands` | rollout/pause.go:72-90 | An abort ends only by its user, a change of the template, a promotion, a rollback within the window, or a return to the stable hash |
| `BlueGreenRuns.FailedAnalysisGivesBack` | rollout/analysis.go:159-169 | A run in which the analysis of a version that has the traffic fails, which aborts it, and the next pass gives the traffic back |
| `BlueGreenProperties.InvHolds` | rollout/analysis.go:73-105 | In every run recorded analysis runs belong to the current hash, and, unless the stable ReplicaSet was ever lost, a hash recorded active stays active unless an abort gave traffic back |
| `BlueGreenProperties.PauseInvHolds` | rollout/pause.go:92-126 | Over every run each pause was added by a pass for the hash that is recorded since then, and a status that says it was paused but has no pauses was resumed after such a pause |
| `BlueGreenProperties.WireHasOrigin` | rollout/bluegreen.go:286-305 | Over every run a set preview trip-wire was set by a pass that met its condition: the preview count matched, any pre-promotion analysis of the hash recorded then successful, its pause lasted or only an inconclusive pause standing; and since then it either belongs to that hash or survived a change of the template |
| `BlueGreenProperties.ActiveMovesSafely` | rollout/service.go:94-121 | Over every run live traffic moves only when not halted and the desired ReplicaSet is ready and saturated; apart from an abort, an unset selector, full promotion and fast rollback only with any pre-promotion analysis of this very hash successful and with the trip-wire set by an earlier pass, or no pause asked for, or the pause added for this very hash over: it lasted its time or, with manual promotion, somebody resumed the rollout after it |
| `BlueGreenProperties.StableMovesSafely` | rollout/sync.go:1280-1314 | Over every run the stable hash moves only to the desired hash; unless no stable ReplicaSet exists it is active with verified targets, and apart from full promotion and fast rollback not aborted and with any post-promotion analysis successful, which is of this very hash exactly when the pass met an unchanged template; a pass that met a change needs a stable ReplicaSet lost before |
| `BlueGreenProperties.CheckpointSurvivesChange` | rollout/bluegreen.go:286-305 | When exactly the preview trip-wire is set after a change of the template |
| `BlueGreenProperties.InconclusivePauseSetsWire` | rollout/pause.go:168-191 | During a pause for an inconclusive analysis, with manual promotion, a pass sets the trip-wire exactly when no blue-green pause stands, no run is inconclusive now, the preview count matches and any pre-promotion analysis was successful |
| `BlueGreenRuns.WireOutlivesTemplate` | rollout/bluegreen.go:286-305 | A run in which the trip-wire of one template lets the next take the traffic without the pause that manual promotion asks for |
| `BlueGreenRuns.WireSetDuringPause` | rollout/pause.go:187-190 | A run in which the trip-wire is set while the rollout is paused for an inconclusive analysis, although promotion is manual and nobody resumed it |
| `BlueGreenRuns.LostStableBorrowsAnalysis` | rollout/sync.go:1280-1314 | A run in which, after the stable ReplicaSet was deleted, a template becomes stable on the analysis of another |
| `RolloutDurations.DurationTracker.CalculateStatusDuration` | rollout/sync.go:450-623 | The record of the attempt and the metric set aside, in every transition |
| `RolloutDurations.DurationTracker.PersistRolloutStatus` | rollout/sync.go:1025-1057 | A metric is emitted after an accepted patch or when nothing differs, and dropped by a failing patch |
| `RolloutDurationProperties.OneMetricPerAttempt` | rollout/sync.go:450-637 | Over every run with failing patches the emitted metrics are those of the attempts begun, in order, one for each that ended and none for one in progress |
| `RolloutDurationProperties.StartsDistinctIff` | rollout/sync.go:556-584 | All attempts have different starts exactly when none begins in the second in which its predecessor began |
| `RolloutDurationProperties.AtMostOneMetricPerStart` | rollout/sync.go:625-637 | Then no two metrics share a start, and an attempt in progress has none |
| `RolloutDurationProperties.EmittedAfterPersisting` | rollout/sync.go:1041-1057 | Outside that case a metric follows a patch that stores the end of its attempt, or a later successor |
| `RolloutDurationProperties.SameSecondCountsTwice` | rollout/sync.go:496-518 | A run in which a change within the second of the start emits two metrics of one start |
| `RolloutDurationProperties.PausesNeverExceed` | rollout/sync.go:597-621 | In every run, and every emitted metric, accumulated manual pauses with an open one never exceed the time since the start |
| `RolloutDurationProperties.EmittedTellsOutcome` | rollout/sync.go:450-637 | Over every run each emitted metric is that of an attempt in progress that came to an end in a pass with effect, with its outcome (superseded, rolled back fast or not, the outcome noted before or by a promotion, promoted, aborted), start, end and pauses |
| `RolloutDurationProperties.MetricTellsOutcome` | rollout/sync.go:450-584 | When exactly a pass sets a metric aside, and what it says |
| `RolloutDurationProperties.BeginsWhen` | rollout/sync.go:556-584 | When exactly an attempt begins |
| `RolloutDurationProperties.RecordOutcome` | rollout/sync.go:450-629 | The record after a pass that begins, continues or ends an attempt |
| `PauseContexts.PauseContext.CalculatePauseConditions` | rollout/pause.go:92-126 | Conditions that are kept and added, in order, and the controller's pause flag |
| `PauseContexts.PauseContext.CalculatePauseStatus` | rollout/pause.go:62-70 | The pause and abort fields written at the end of a reconcile |
| `PauseContexts.AbortAgreesIff` | rollout/pause.go:32-40 | What stages are told about an abort agrees with what is recorded exactly when it is not both added and removed |
| `PauseContexts.PromotePastDeadline` | rollout/sync.go:825-856 | A full promotion past the progress deadline: the stages see no abort and the status records one |
| `PauseContexts.AbortTimeIsStable` | rollout/pause.go:73-83 | The time of an abort never moves |
| `PauseContexts.ReasonsDistinctIff` | rollout/pause.go:100-119 | Conditions keep distinct reasons exactly when no missing reason is asked for twice |
| `PauseContexts.PauseForTwoAnalyses` | rollout/analysis.go:378-436 | Step and background analysis inconclusive in one reconcile pause the rollout twice for one reason |
| `PauseContexts.RemovalWins` | rollout/pause.go:94-119 | A reason removed and asked for in one reconcile ends up removed |

## Left out

- Run summaries, messages, events, logs, secret redaction and provider metadata: they do not influence the modelled state.
- What a provider deletes when it garbage-collects, and the time-to-live of finished runs.
- Parsing of durations and of argument templates: metrics come with their arguments resolved and durations parsed.
- Integers are unbounded; products of weights and replicas are assumed to fit the source's 32 bits.
- `CanaryScaleDown` models the canary without traffic routing, the only case in which the budget binds; the traffic-routed
  branch of that loop (`rollout/canary.go:146-169`) and the AWS target group gate before it are not modelled.
- Sorting of ReplicaSets whose revision annotation does not parse, which compares places in the list.
- ReplicaProgressThreshold percentages are compared exactly; the source compares floating point numbers with a tolerance
  of 1e-10, which is the same for all numbers of pods that fit 32 bits.
- How many replicas a step asks for (`utils/replicaset/canary.go:59-420`): "at the desired count" is an observation.
- Header and mirror routes, the canary service selectors and the routers themselves, apart from success and failure.
- Background and step analysis of a canary, experiments, and the choice of runs to cancel or delete; their phases, and the
  reasons to pause or abort that they give, are observations of `CanaryPromotion`.
- The flag in the recorded weights that says they are verified: the prepared status shares the recorded weights with the
  stored one while they are unmodified, so a change of the flag alone reaches no patch; the model records it.
- Scaling of new and stable ReplicaSets, revision history, ephemeral metadata, ping-pong services, and migration from a Deployment.
- The wait of a plugin (its backoff) is an observation; plugin messages and returned plugin state are not modelled.
- GetAnalysisTemplatesFromRefs: does not model references with a cycle, on which the source does not end.
