# Climatik power capping, verified

A Dafny model of the two state machines at the heart of Climatik, with proofs about all their inputs and all their runs.

**The capping control loop** (Python operator). A timer tick reads every ScaledObject that a PowerCappingConfig refers to and
the power of the deployment it targets, asks a strategy for replica limits, writes them back as `maxReplicaCount`, and
publishes gauges and a status. A create event writes a first limit. Modules `Rounding`, `Sums`, `Strategies`, `Text`,
`Cluster`, `Ticks` and `Operator` model it; `Ticks` gives the meaning of the handlers on values, and the methods of
`Operator`, `Cluster.ApiServer` and `Metrics.PowerCappingMetrics` are the loops themselves, proved to have that meaning.
`ChangeLog`, `WriteLoop`, `ReadLoop`, `TickProperties`, `Interleaving` and `Runs` hold the theorems on stores, ticks and whole
histories; `Forecasts`, `Iteration`, `ClosedLoop` and `PowerBudget` those on replicas and power.

**The alert pipeline** (Go controller). A pod event starts a watcher, the watcher computes a cap and publishes an alert, and
one goroutine for each subscriber delivers it. `PubSub`, `AlertFactory`, `PowerCaps`, `PromAlert`, `PodDeviceText` and
`GitOpsAlert` hold the objects and the algorithms, with `GitOpsText` on reading messages back; `PubSubSystem` and `Controller` are transition systems over locks, running
loops and pending goroutines; `PubSubRefinement`, `PubSubProgress`, `ControllerProgress` and `AlertStore` hold the theorems.

How the outside world enters:

- A loop over references runs under a script: before each iteration other clients may edit, create or delete any objects, then
  the calls of the iteration succeed or one of them raises. One iteration of the write loop gets and patches an object in one step: the
  patch carries the object's `resourceVersion`, so a change in between would be refused, which is a failed iteration.
- Power readings are exact reals. The readings of each iteration are part of the environment, so a deployment that several
  references share may answer differently each time; the last answer counts.
- The plant of the closed loop is a hypothesis, `ClosedLoop.History.StepAt`: after a published tick the replicas are the
  counts on the objects, after a failed one they do not move, and a deployment draws a fixed positive power for each replica.
  `ClosedLoop.RunFrom` shows that it can be met from every start.
- Iterating a Python dictionary or a Go map picks the next key arbitrarily, so what is proved holds for every order.

Where the code and its documentation differ, the model follows the code:

- `doc/designs/problem-statement.md:21-33` asks that the power of all services together stay within the cap. The strategies
  give the whole cap to each deployment. `Forecasts.ForecastWithinCap` says exactly when the forecast still obeys, and
  `PowerBudget.PowerStaysWithinCap` exactly when the power really drawn does; `PowerBudget.OverCapRun` is a run that exceeds it.
- The published forecast multiplies a replica count by the power of all replicas of the deployment, so it is no prediction of
  the next power (`PowerBudget.ForecastAgainstNextPower`, with a run in `PowerBudget.MisleadingRun`).
- `api/v1alpha1/powercappingconfig_types.go:39` calls `PowerCapPercentage` the cap as a percentage of the peak. The
  controller goes by the pod's label. `PowerCaps.CapHonoursConfig` says exactly when the two agree; a pod labelled "gold" gets
  a cap of zero (`PowerCaps.GoldLabelGetsNothing`).
- The comment on `PrioritizeHighReplicaStrategy` promises a priority; its code is the other strategy's.
- The gauge for core energy exists, but its metric is missing from the list (`Metrics.CoreGaugeIsNeverSet`).
- A deployment at zero replicas beside a running one makes the strategy divide by zero, and the loop never recovers by
  itself (`ClosedLoop.FailedTickIsForEver`, `ClosedLoop.FailingRun`). `ClosedLoop.EveryTickIsPublished` says exactly which
  starts never lead there.

## Model

| member | source | states |
|---|---|---|
| Rounding.TruncIsGreatestFit | python/climatik_operator/strategies/maximize_replicas.py:14-17 | for a positive draw and a cap of at least zero, the truncated quotient is the one and only greatest count whose draw stays within the cap |
| Rounding.TruncIsTowardZero | python/climatik_operator/strategies/maximize_replicas.py:14-17 | for either sign, the fraction is dropped toward zero |
| Strategies.LimitsAreOptimal | python/climatik_operator/strategies/maximize_replicas.py:8-18 | a table is the strategies' result exactly when it covers the measured deployments and each entry is the greatest count that fits |
| Strategies.DivideCap | python/climatik_operator/strategies/maximize_replicas.py:8-18 | the loop, identical in the two strategies: for any item order it raises exactly for a zero reading or a missing cap, else gives the truncated quotient of each deployment, negative ones included |
| Strategies.MaximizeReplicasStrategy.CalculateMaxReplicas | python/climatik_operator/strategies/maximize_replicas.py:8-18 | whatever the current replicas: raises exactly for a zero reading or a missing cap, and on positive readings covers the measured deployments with the greatest fitting counts |
| Strategies.PrioritizeHighReplicaStrategy.CalculateMaxReplicas | python/climatik_operator/strategies/prioritize_high_replica.py:8-18 | the second implementation meets the same contract |
| Sums.SumValues | python/climatik_operator/operator.py:147 | summing in any order gives the one sum of the dictionary |
| Cluster.KeyOfReference | python/climatik_operator/operator.py:80-85 | which references raise while the request is built, and which object each of the others names, an apiVersion with more than one slash included |
| Cluster.LowerIsPointwise | python/climatik_operator/operator.py:80-85 | lower-casing turns each capital into its small letter and keeps every other character |
| Cluster.CaseDoesNotMatter | python/climatik_operator/operator.py:80-85 | references whose kinds differ only in case name the same object |
| Cluster.ScaledObjectPlural | python/climatik_operator/operator.py:80-85 | the kind ScaledObject is asked for as scaledobjects |
| Cluster.ApiServer.WriteCounts | python/climatik_operator/operator.py:155-184 | the write loop leaves the store and the log of its specification: one patch an iteration, in order, up to the first failed call |
| ChangeLog.LastChangeIsLast | python/climatik_operator/operator.py:175-184 | the last change of an object, in a history of edits by others and patches, is the last one that concerns it |
| ChangeLog.LastChangeDecides | python/climatik_operator/operator.py:170-184 | of each object, all but the count is as the other clients alone would have left it, and the count is the last patch's unless another client edited the object after it |
| ChangeLog.AppliedPatches | python/climatik_operator/operator.py:175-184 | a history of patches alone changes counts only, and on each object the last one wins |
| WriteLoop.WritesIgnoreCounts | python/climatik_operator/operator.py:155-184 | under any environment the loop's patches depend on the targets, never on the counts already there |
| WriteLoop.WritesComeFromTable | python/climatik_operator/operator.py:155-184 | whatever others edit, create or delete meanwhile, the history is their edits and patches of referenced objects that are there, each with the entry of the target its object has at that moment, or the default |
| WriteLoop.WritesAreInOrder | python/climatik_operator/operator.py:155-184 | under any edits: one patch an iteration, for the references in order, up to the first bad reference, absent object or failed call, and none after it |
| WriteLoop.WritesComplete | python/climatik_operator/operator.py:155-184 | undisturbed, the loop ends as it should exactly when every reference can be read and patched |
| WriteLoop.WritesArePointwise | python/climatik_operator/operator.py:155-184 | a complete loop leaves on each referenced object the entry of its target and nothing elsewhere, for any order and repetition of references |
| ReadLoop.ReadsWriteNothing | python/climatik_operator/operator.py:117-141 | reading changes nothing: whatever differs afterwards is an edit of another client |
| ReadLoop.ReadsAreMeasurement | python/climatik_operator/operator.py:117-141 | the read loop ends exactly when each iteration succeeds, with one entry a targeted deployment, the answer taken last |
| ReadLoop.DisturbedReads | python/climatik_operator/operator.py:117-141 | under any edits: the loop ends exactly when each iteration finds its object and gets its answers, with one entry for each deployment asked for at its moment, the answer taken last |
| TickProperties.WhenTickPublishes | python/climatik_operator/operator.py:106-207 | a tick reaches its end exactly when all reads succeed, the strategy is not needed or does not raise, and all writes succeed |
| TickProperties.PublishedTickIsPointwise | python/climatik_operator/operator.py:111-207 | functional correctness: each referenced object holds the truncated quotient for its target, or 1 without power; all else is unchanged; shared deployments count once in both values of the status and in the forecasts, each reference in the number of objects |
| TickProperties.StrategyFailureWritesNothing | python/climatik_operator/operator.py:143-152 | given successful reads, the strategy raises exactly when one deployment draws power and another none (or there is no cap), and then nothing is patched or published, whatever others edit |
| TickProperties.TickIgnoresCounts | python/climatik_operator/operator.py:106-207 | patches and publication of a tick depend on the targets of its own objects only, neither on counts nor on other objects |
| TickProperties.TickIsIdempotent | python/climatik_operator/operator.py:106-207 | a second tick with the same answers has the same patches and publication and leaves the store as it was |
| TickProperties.TicksCommute | python/climatik_operator/operator.py:106-207 | ticks of two configs over disjoint objects commute, with the same publications, the ticks that stop midway included |
| TickProperties.DisturbedTickWritesMeasuredLimits | python/climatik_operator/operator.py:117-184 | with others retargeting and editing objects before every read and write, each value written is 1 or the strategy's value for a deployment measured in this tick |
| TickProperties.DisturbedTickWritesDueCounts | python/climatik_operator/operator.py:155-184 | and which one: the value of the deployment that the object targets when it is read again, or 1 if that was not measured or nothing draws power |
| Interleaving.CallKeepsOutlook | python/climatik_operator/operator.py:54-207 | a handler taken one API call at a time is heading for the result of the whole handler before and after every call |
| Interleaving.InterleavedHandlersAreIsolated | python/climatik_operator/operator.py:54-207 | any number of ticks and create events over disjoint objects, their single API calls interleaved in any way with each other and with other clients' edits elsewhere: each that has ended made the patches and the publication it would have made alone, its objects are as it would have left them, and all other objects are the other clients' |
| Interleaving.EnoughTurnsEnd | python/climatik_operator/operator.py:54-207 | in any schedule a handler has ended after at most five calls of its own for each reference and three more steps |
| Interleaving.InterleavedIsSequential | python/climatik_operator/operator.py:54-207 | two interleaved handlers leave the store that they leave one after the other |
| Forecasts.StatusBounds | python/climatik_operator/operator.py:189-207 | with any power, n*cap - current < forecast <= n*cap over the n deployments; with none, both status values are zero |
| Forecasts.ForecastWithinCap | doc/designs/problem-statement.md:21-33 | of any published tick with readings of at least zero, the forecast stays within the cap if and only if at most one measured deployment draws some power and no more than the cap |
| Forecasts.ForecastExceedsCap | python/climatik_operator/strategies/maximize_replicas.py:14-17 | a concrete pair of deployments whose forecast is twice the cap |
| Runs.LastWriterWins | python/climatik_operator/operator.py:54-184 | over any history of create events, ticks and other clients' edits, however many stopped midway: each object is as the other clients alone would have left it, with the count of the last accepted patch unless they edited it later; that count is the whole hundreds in a created cap, 1, or the limit of a deployment measured in the tick that patched it |
| Runs.OneEventMore | python/climatik_operator/operator.py:54-207 | a history with one event more is the history, then that event on the store as it then is |
| Runs.AloneOnlyCountsChange | python/climatik_operator/operator.py:54-184 | without other clients, a history changes counts only |
| Runs.CreateWrites | python/climatik_operator/operator.py:54-99 | a spec without its cap or references, with a negative cap, or with a reference lacking its apiVersion, kind or name writes nothing and raises; any other writes the whole hundreds in the cap to referenced objects only, and undisturbed completes exactly when every reference can be read and patched |
| Operator.CreatePowerCappingConfig | python/climatik_operator/operator.py:55-99 | the handler's effect on store and log is the specified one |
| Operator.MeasureDeployments | python/climatik_operator/operator.py:111-141 | the two dictionaries are those of the read loop's specification |
| Operator.Publish | python/climatik_operator/operator.py:186-207 | the power and forecast gauges of this tick's deployments add up to the two values of the status, from any earlier gauges |
| Operator.MonitorPowerUsage | python/climatik_operator/operator.py:106-207 | store, log, gauges and status are those of the tick for either strategy; an unpublished tick leaves every gauge alone |
| LastEntries.LatestIsLast | python/climatik_operator/prom_metrics.py:180-201 | what a sequence of assignments leaves holds exactly the keys assigned, each with the value set last |
| Metrics.PowerCappingMetrics.UpdateMetric | python/climatik_operator/prom_metrics.py:180-202 | the samples up to the first failure reach the metric's own gauge, and no other gauge changes |
| Metrics.PowerCappingMetrics.UpdateMetrics | python/climatik_operator/prom_metrics.py:170-206 | for every pattern of caught and uncaught errors, each of the nine gauges ends with the samples of the metric that bears its name if that metric had its turn, else unchanged |
| Metrics.SettingsAreSamples | python/climatik_operator/prom_metrics.py:180-183 | samples lead to updates one for one up to the first that fails, with their values and pod names, or the text None |
| Metrics.WhenMetricCrashes | python/climatik_operator/prom_metrics.py:202-206 | request and value errors never leave the loop; an uncaught error does, and a malformed sample that is the first to fail |
| Metrics.ListedMetrics | python/climatik_operator/prom_metrics.py:28-42 | the list has every metric but the core one |
| Metrics.GaugesAreIsolated | python/climatik_operator/prom_metrics.py:170-206 | a gauge does not depend on the order or repetition of the metric list, nor on any other metric's answer |
| Metrics.CoreGaugeIsNeverSet | python/climatik_operator/prom_metrics.py:28-42 | with the listed names no update sets the core gauge |
| Iteration.FitSymmetric | python/climatik_operator/strategies/maximize_replicas.py:14-17 | the limit function is its own adjoint: y fits against x replicas exactly when x fits against y |
| Iteration.FitThrice | python/climatik_operator/strategies/maximize_replicas.py:14-17 | taking the limit three times is taking it once, while a replica fits |
| Iteration.FitIsQuotient | python/climatik_operator/strategies/maximize_replicas.py:14-17 | the limit of a deployment at x replicas is the limit of one replica, divided by x and rounded down |
| Iteration.AnyStartReturns | python/climatik_operator/operator.py:147-184 | from any vector of counts, after three ticks the state returns every second tick |
| Iteration.ThirdTickIsNeeded | python/climatik_operator/operator.py:147-184 | three is the least: a family of loops that do not return from the second tick |
| Iteration.SteadyDecides | python/climatik_operator/operator.py:147-152 | a loop is never mixed exactly when it starts steady; else one of its first four states is mixed |
| ClosedLoop.PlantTick | python/climatik_operator/operator.py:117-184 | on the plant's readings a tick is published exactly when counts are not mixed, and then every object holds the next count of its target |
| ClosedLoop.ClosedLoopHasPeriodTwo | python/climatik_operator/operator.py:117-184 | any number of deployments, any start: x(t+2) = x(t) for all t >= 3 |
| ClosedLoop.SingleDeploymentHasPeriodTwo | python/climatik_operator/operator.py:147-184 | one deployment, any start including zero: x(t+2) = x(t) for all t >= 2 |
| ClosedLoop.InRangeLoopIsSafe | python/climatik_operator/operator.py:117-184 | from counts between 1 and the cap's worth: every tick is published, every deployment stays within the cap, period two from the first tick |
| ClosedLoop.EveryTickIsPublished | python/climatik_operator/operator.py:147-184 | every tick of a run is published if and only if at the start all deployments run within the cap, or all are idle or all over the cap and one replica fits for all or for none |
| ClosedLoop.FourTicksDecide | python/climatik_operator/operator.py:147-152 | so a run that is going to fail does so within its first four ticks |
| ClosedLoop.RunFrom | python/climatik_operator/operator.py:105-184 | from every start that meets the plant's hypothesis there is a run |
| ClosedLoop.FailingRun | python/climatik_operator/operator.py:147-152 | a concrete start whose first tick is published and whose later ticks all fail |
| ClosedLoop.FailedTickIsForEver | python/climatik_operator/operator.py:150-152 | after a failed tick neither replicas nor store ever change again |
| ClosedLoop.SingleDeploymentCap | python/climatik_operator/operator.py:147-184 | after the first tick a single deployment's power stays within the cap if and only if one replica's does |
| PowerBudget.ForecastAgainstNextPower | python/climatik_operator/operator.py:189-207 | in a run, the forecast published is at least the power at the next tick, and equal exactly when every deployment runs one replica or draws more than the cap; of idle deployments it is zero |
| PowerBudget.MisleadingRun | python/climatik_operator/operator.py:189-207 | a run at two replicas whose forecast exceeds the next power |
| PowerBudget.PowerStaysWithinCap | doc/designs/problem-statement.md:21-33 | for any number of deployments and any start, the sum of all draws stays within the cap from the first tick on if and only if sums computed from the starting counts alone do, by the kind of start: all idle or over the cap, mixed, partly over the cap, or all within it |
| PowerBudget.OverCapRun | doc/designs/problem-statement.md:21-33 | a run of two deployments that draw more than the cap after one tick |
| PubSub.PubSub.Subscribe | internal/alert/pubsub.go:21-25 | the subscriber is appended to its topic; no list ever loses or reorders anything |
| PubSub.PubSub.Publish | internal/alert/pubsub.go:27-33 | one goroutine for each subscriber of the topic, in order, with the message given |
| PubSub.AlertService.SendAlert | internal/alert/service.go:18-21 | the same, on the alerts topic |
| PubSubSystem.SnapshotKept | internal/alert/pubsub.go:21-33 | under the lock a running loop keeps seeing the list it started on |
| PubSubSystem.StepKeepsInv | internal/alert/pubsub.go:10-33 | every step, a waiting writer blocking later readers included, keeps exclusion, snapshots and conservation: pending plus finished deliveries are, each once, the iterated prefixes of the publishers' snapshots |
| PubSubRefinement.StepRefines | internal/alert/pubsub.go:21-33 | each step is one atomic subscribe, publish or finish, or none; a publish happens at one instant inside its critical section |
| PubSubRefinement.ExecutionRefines | internal/alert/pubsub.go:21-33 | every execution, with any number of concurrent callers, maps to an execution of the atomic PubSub |
| PubSubRefinement.TraceIsRequested | internal/alert/pubsub.go:21-33 | the atomic steps of an execution are those its calls ask for, with their topics, managers and messages, each once; what is missing is still waiting |
| PubSubRefinement.QuiescentCallsPerformed | internal/alert/pubsub.go:21-33 | at quiescence every call has been performed exactly once |
| PubSubRefinement.QuiescentDeliveries | internal/alert/pubsub.go:27-33 | at quiescence each publish reached each manager of its list exactly once a position, in position and with its message, and nothing else was delivered |
| PubSubRefinement.NoDeadlock | internal/alert/pubsub.go:21-33 | until quiescence some running call or goroutine can take a step, under a lock that prefers waiting writers as sync.RWMutex does |
| PubSubRefinement.RLockAlwaysTaken | internal/alert/pubsub.go:27-29 | a publisher enters at once when there is no writer, and else is blocked until the writer has left |
| PubSubProgress.StepDrops | internal/alert/pubsub.go:21-33 | every step but a new call lowers a bound on the steps still to come |
| PubSubProgress.ExecutionsEnd | internal/alert/pubsub.go:21-33 | without new calls every execution is over after boundedly many steps, and it cannot go on exactly when it is at rest |
| AlertFactory.CreateAlertService | internal/alert/factory.go:18-43 | fails exactly for an unsupported type or a Prometheus address that cannot be parsed, else subscribes one manager of each configured type, with its own setting, to the alerts topic and nothing else |
| PowerCaps.WatchPodPowerUsage | internal/controller/powercappingconfig_controller.go:250-296 | fails exactly without a sample; else the peak is the greater of the first sample and zero |
| PowerCaps.CapBounds | internal/controller/powercappingconfig_controller.go:298-313 | for a reading of at least zero the alerted cap v has 100*v <= reading*pct < 100*(v+1) and is never more than the reading; for a negative one it is zero |
| PowerCaps.CapShares | internal/controller/powercappingconfig_controller.go:46-51 | the shares by label: 90, 80 and 50 percent, and zero for any other label |
| PowerCaps.CapHonoursConfig | api/v1alpha1/powercappingconfig_types.go:38-41 | the alert carries the configured percentage for every reading if and only if the label stands for that percentage |
| PowerCaps.GoldLabelGetsNothing | internal/controller/powercappingconfig_controller.go:46-51 | a label for which they disagree: its alerts carry a cap of zero whatever the config says |
| PowerCaps.GetPodDevices | internal/controller/powercappingconfig_controller.go:222-234 | both devices with their labels, or none as soon as one lookup fails |
| Controller.MoveKeepsInv | internal/controller/powercappingconfig_controller.go:170-240 | each event, watcher and step keeps: watchers belong to qualifying events, publishes to successful watchers, messages to their events |
| Controller.AlertedIsDue | internal/controller/powercappingconfig_controller.go:170-217 | in every reachable state, an event is alerted exactly when it arrived as a labelled pod whose config exists and is relative to the peak, and the query of its watcher got a sample |
| Controller.Provenance | internal/controller/powercappingconfig_controller.go:170-240 | every delivery in every reachable state comes once from one such event among those that arrived, and carries its pod, the cap from its sample, and its devices |
| Controller.AtRestEveryAlertArrived | internal/controller/powercappingconfig_controller.go:199-230 | at rest the deliveries are exactly one for each such event and each manager, their number is the product, and no outcome of the device lookups suppresses any |
| ControllerProgress.PipelineComesToRest | internal/controller/powercappingconfig_controller.go:199-213 | without new pod events every execution is over after boundedly many moves, and then it is at rest |
| ControllerProgress.EveryAlertArrives | internal/controller/powercappingconfig_controller.go:199-240 | so from any reachable state, once the moves that need no new event are made, each alerted event has reached each manager exactly once |
| ControllerProgress.AnythingCanArrive | internal/controller/powercappingconfig_controller.go:170-214 | in every state that keeps the invariant any event can arrive, and an open window can end with any answers |
| ControllerProgress.FailedLookupStillAlerts | internal/controller/powercappingconfig_controller.go:204-230 | a concrete execution: a pod labelled high at 200 W whose second device lookup fails is alerted, with a cap of 180 W and no devices |
| PromAlert.DeviceText | internal/alert/adapters/prom_alert.go:48-54 | appending with commas and trimming yields the comma join of the entries for the order the loop took |
| PromAlert.DecodeInvertsRender | internal/alert/adapters/prom_alert.go:48-54 | for every order, cutting the text at commas and at first colons gives back the map if and only if no key holds a colon or comma and no value a comma |
| PromAlert.CleanTextsDiffer | internal/alert/adapters/prom_alert.go:48-54 | distinct clean device maps never share a text, in whatever orders |
| PromAlert.UncleanTextsCollide | internal/alert/adapters/prom_alert.go:48-54 | two maps, one with a comma in a value, that share a text |
| PodDeviceText.PodTextIsUnique | internal/alert/adapters/prom_alert.go:48-54 | for the maps that getPodDevices can give, any reader at all can get the map back from its text if and only if neither value holds a comma, the device written second and a colon |
| PodDeviceText.PodTextsCollide | internal/alert/adapters/prom_alert.go:48-54 | two maps that getPodDevices can give and that share a text |
| PromAlert.FormatPrometheusAlert | internal/alert/adapters/prom_alert.go:47-67 | the reader that cuts at commas and first colons gets pod, cap and devices back from the alert if and only if the device map is clean |
| GitOpsAlert.GitOpsAlertManager.FormatAlertMessage | internal/alert/adapters/git_ops.go:32-49 | the text of the message for some order of its devices |
| GitOpsText.ReadInvertsText | internal/alert/adapters/git_ops.go:32-49 | for every order, pod, cap and devices can be read back from the message if and only if the pod's name is one line, no key holds a colon and a blank, and no key or value holds a line break |
| GitOpsAlert.GitOpsAlertManager.CreateAlert | internal/alert/adapters/git_ops.go:25-30 | the pod's file holds the new alert, every other file what it held: the store of one more call |
| GitOpsAlert.AlertPath | internal/alert/adapters/git_ops.go:27 | the file of a pod, for every kind of repository directory |
| GitOpsAlert.TemplateInFull | internal/alert/adapters/git_ops.go:38-48 | the fixed text of the message and what stands in it, in order |
| GitOpsAlert.StoreFiles | internal/alert/adapters/git_ops.go:25-30 | after any calls in any order the files are exactly those of the pods alerted |
| GitOpsAlert.StoreHoldsLast | internal/alert/adapters/git_ops.go:25-30 | each file holds the last alert of its own pod |
| AlertStore.StoreIsFromEvents | internal/controller/powercappingconfig_controller.go:209-240 | end to end: in every reachable state each file in the store of a GitOps manager holds a true alert of an event of its own pod |
| AlertStore.StoreHoldsLatestDelivery | internal/alert/adapters/git_ops.go:25-30 | each file of a GitOps manager holds the message of the last delivery to it about that pod |
| AlertStore.StoreIsComplete | internal/controller/powercappingconfig_controller.go:209-240 | at rest every alerted pod has its file in the store of every GitOps manager |
| AlertStore.EveryConfiguredManagerIsServed | internal/alert/factory.go:31-43 | with a service built from a configuration, each alerted event reached the manager of each configured type exactly once |

## Left out

- Floating point: readings, caps and shares are exact reals; overflow of Go's `int` conversion and Python's rounding are not modelled.
- Values of the wrong JSON type in a spec (a text as power cap, a ScaledObject without a target): the model has absent fields, not mistyped ones.
- An API call that is carried out although its answer is lost: a patch is accepted or has no effect.
- The Kepler power query itself, HTTP, Kubernetes and Slack clients, logging, environment variables and time stamps: foreign calls, modelled by their answers.
- The config argument of CreateAlert: the controller always passes the same fixture, so messages do not carry it.
- Errors of CreateAlert: a goroutine drops them, so a delivery counts as finished when its call has returned.
- A sample window of zero or less: `time.NewTicker` panics and ends the process, so windows are taken to be positive.
- Cancellation of a watcher's context: it is cancelled only after the watcher has returned.
- Data races on the GitOps map: each write is one atomic step. Pod names are taken to have no '/', as Kubernetes demands, so that `filepath.Join` adds one path element.
- Fairness: ExecutionsEnd and PipelineComesToRest bound every execution without new calls or events and say where it can end; that the scheduler goes on as long as something can run is Go's promise.
- Concurrent handlers of configs that share objects: the interleaving theorems are about disjoint objects; with shared ones the last-writer law holds, one handler at a time with edits at any moment.
- Cleaning of the repository directory by `filepath.Join`: the directory is taken to be a clean path or empty.
- The choice of the strategy by its name: MonitorPowerUsage is proved for both.
- `Reconcile`, `SetupWithManager`, the webhook server and its runners, the planner, the mock exporter and generated code: wiring, or constant results.
- The `update_cpu_time` setter and the separate setter of each Kepler gauge: one setter stands for all, since they differ in the gauge only.
