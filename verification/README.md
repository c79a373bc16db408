# Edge agent: verified core

A Dafny model of the decisions the robot's edge agent cannot afford to get wrong, with proofs
over every input and every run. Distances are compared as squares over `real`; tables, the
filesystem, services and the broker are explicit state with arbitrary answers; every place
where the process can stop or another thread can step in is a step of its own.

| area | files | main results |
|---|---|---|
| Geofence | `Geometry`, `Polygon`, `PolygonDistance`, `Boundary`, `RouteSafety`, `RouteExactness`, `BoundaryManager`, `ZoneEvents`, `KeepoutMask` | whole legs, not only samples, are safe, exactly above half a sampling step; three enforcement layers agree; events reconstruct the state |
| Durable store and uplink | `SelfHealing`, `SelfHealStore`, `PruneExactness`, `Outbox`, `Uplink`, `Commands`, `CommandOutcomes` | history survives pruning, exactly without stray actions; bounded outbox; replay drains; commands execute at most once, and a first delivery exactly when it should |
| Recovery ownership | `Arbiter`, `Fusion`, `RecoveryWorker`, `EdgeRecovery`, `Progress`, `Interference`, `LateResumes` | disjoint leases, later fusion profiles are spared, a bounded and safe retry loop on a shared arbiter that tries every means in order and resumes the task with the first that works |
| Map switching | `SymlinkTree`, `MapPointer`, `MapSwitch` | one serving directory after every single filesystem operation, and every name switched at the end |
| Loop closure | `ScanContext`, `ScanMeaning`, `Sorting`, `LoopSelection` | retrieval is blind to heading; flags, list and cap tell one story |
| Streaming detectors | `LowBattery`, `VoiceSegments` | latched alerts over restarts; speech segments partition the stream |

Code that updates state is modelled by classes and loops proved against a specification
function (`Step`, `Pruned`, `Attempt`, `Recovered`, `Hear`, ...); the theorems are about runs of that
function. `dafny verify dfyconfig.toml` checks the project.

Where a hoped-for property is false of the code, the model keeps the code and states exactly
when it holds:

- The sampled route check protects the space between samples if and only if the margin
  exceeds half a sampling step (`RouteExactness.SamplingIsExact`). The source does not enforce
  such a margin; at its 5 cm step, used for legs up to 100 m, it takes more than 2.5 cm.
  Edges of at most a nanometre, which the source measures from one end, cost a nanometre more.
- Pruning counts unfinished actions of finished episodes into the daily summary although the
  statistics did not count them; the totals agree if and only if there are none, which the
  start-up reconcile ensures (`SelfHealing.PruneKeepsActionsIff`, `SelfHealing.StrayIsCounted`).
- The near-warning set is recovered from the events only under a condition on keys
  (`ZoneEvents.NearReconstructed`), which distinct zone keys give; two zones with one key
  break it (`BoundaryManager.SharedKeyLosesWarning`).
- A boundary command that is refused because the mask or the record could not be written has
  already taken effect (`BoundaryManager.NavigationBoundaryManager.Apply`).
- A delivery replaces the result it has stored by a failure if and only if publishing it raised
  (`Commands.ResultReplacedIff`); the failure carries the code of a protocol error, and
  INTERNAL_ERROR otherwise (`Commands.ReplacedResultWitness`). Results of asynchronous work
  replace a stored result too. Acknowledgements are final.
- Map migration is crash-consistent if and only if the files do not lie in the map directory
  itself and an existing pointer already names their directory
  (`MapSwitch.Disk.ActivateMapVersion`, with `MapPointer.FilesInRootStart` and
  `MapPointer.StalePointerStart` on the failing side).
- A restore of the fusion profile may take over a temporary profile that is not Edge's, against
  its own description; it can never touch a nominal one (`Fusion.ForeignProfileLostIff`).
- Expiry bookkeeping that reads a stale report drops a live fusion lease
  (`Fusion.LiveLeaseDroppedIff`).
- A configured maximum of one recovery cycle starts a second one exactly when a successful
  feature search restarts the loop (`RecoveryWorker.CyclesWithinMaximumIff`,
  `RecoveryWorker.OneMayBecomeTwo`).
- The loss handler leaks the recovery lock exactly when a call after taking it raises
  (`EdgeRecovery.EdgeAgent.HandleLoss`), and then no worker ever starts again
  (`EdgeRecovery.LeakIsForever`).
- A cancelled worker may still resume the task; it does so only on a correction completed by
  then if and only if the correction interface is there, never answers "unavailable", and
  hand-offs settle in time (`LateResumes.LateResumesTimelyIff`).
- Without a store the low-battery latch does not survive a restart
  (`LowBattery.LatchSurvivesRestartIff`).

## Model

| member | source | states |
|---|---|---|
| `Geometry.NearestPoint` | edge-agent/roamerx_edge/navigation_boundary.py:28-36 | the clamped projection is the true nearest point: no other point of a non-degenerate segment is closer to p |
| `Geometry.DistanceLoss` | edge-agent/roamerx_edge/navigation_boundary.py:28-36 | moving by at most d costs at most d of the distance to any fixed point, on squared distances |
| `Polygon.PointInPolygon` | edge-agent/roamerx_edge/navigation_boundary.py:14-25 | the toggling loop returns whether the polygon has three vertices and an odd number of edges crossed by the rightward ray |
| `Polygon.MaskInside` | edge-agent/roamerx_edge/boundary_filter_mask.py:14-23 | the unguarded copy returns whether the crossing count is odd, for every polygon including the empty one |
| `Polygon.TinyPolygonsEncloseNothing` | edge-agent/roamerx_edge/boundary_filter_mask.py:14-23 | fewer than three vertices never give an odd count, so the missing guard of the mask copy changes nothing |
| `Polygon.InsideCopiesAgree` | edge-agent/roamerx_edge/boundary_filter_mask.py:14-23 | the two point-in-polygon copies agree on every polygon and point |
| `Polygon.EdgeParity` | edge-agent/roamerx_edge/navigation_boundary.py:14-25 | an edge that a segment misses changes the parity between its two ends exactly when the edge enters or leaves the strip to the right of the segment |
| `Polygon.ChainParity` | edge-agent/roamerx_edge/navigation_boundary.py:14-25 | over the first k edges those changes telescope to the two end vertices of the chain |
| `Polygon.SameSide` | edge-agent/roamerx_edge/navigation_boundary.py:14-25 | ray casting is constant along every segment that meets no edge of the polygon |
| `PolygonDistance.EdgeMinBound` | edge-agent/roamerx_edge/navigation_boundary.py:39-45 | the polygon distance is at least a bound if and only if every edge distance is |
| `PolygonDistance.DistanceCopiesAgree` | edge-agent/roamerx_edge/boundary_filter_mask.py:26-41 | the mask writer computes the same polygon distance as the boundary manager |
| `Boundary.PointVerdict` | edge-agent/roamerx_edge/navigation_boundary.py:138-161 | on the fields: a mismatch if and only if a revision is expected and map or revision differ; accepted if and only if there is no mismatch and, on the active map, the point keeps inside the outer polygon and away from every forbidden zone by the margin; outside_boundary exactly when the outer polygon is left or too close |
| `Boundary.MaskAgreesWithAdmission` | edge-agent/roamerx_edge/boundary_filter_mask.py:95-112 | for every applied boundary a raster position is free if and only if admission accepts it |
| `Boundary.WatchdogAgreesWithAdmission` | edge-agent/roamerx_edge/navigation_boundary.py:195-236 | the runtime watchdog reports no violation if and only if admission accepts the pose |
| `Boundary.ViolationNames` | edge-agent/roamerx_edge/navigation_boundary.py:204-236 | the violation names the last forbidden zone entered; if none is, it is outside_boundary exactly when the outer polygon is left or too close |
| `Boundary.ThreeLayersAgree` | edge-agent/roamerx_edge/navigation_boundary.py:147-236 | admission, watchdog and raster mask give one answer at every point of every applied boundary, zones with fewer than three vertices included |
| `RouteSafety.SampleCountIsCeiling` | edge-agent/roamerx_edge/navigation_boundary.py:177-178 | the sample count read off the squared length is min(2000, max(1, ceil(length / 0.05))) |
| `RouteSafety.EdgePointsClear` | edge-agent/roamerx_edge/navigation_boundary.py:28-36 | a point that the source measures m away from an edge is m away from every point of it, less a nanometre for an edge too short to be measured along its length |
| `RouteSafety.SampledClearance` | edge-agent/roamerx_edge/navigation_boundary.py:176-184 | if every sample keeps m from an edge, every point of the leg keeps m - step/2 from every point of that edge, less the slack of that edge |
| `RouteSafety.LegClearance` | edge-agent/roamerx_edge/navigation_boundary.py:147-184 | every point of an accepted leg is at least margin - step/2 from every outer and forbidden edge, less the slack of that edge alone |
| `RouteSafety.MeasuredClearance` | edge-agent/roamerx_edge/navigation_boundary.py:147-184 | the distance the source itself would measure from any point of an accepted leg to any fence edge is at least margin - step/2, on every boundary |
| `RouteSafety.LegMissesFences` | edge-agent/roamerx_edge/navigation_boundary.py:163-184 | with a margin above half a step plus the slack of the boundary (zero without unmeasurably short edges, else a nanometre) an accepted leg meets no outer or forbidden edge |
| `RouteSafety.LegKeepsSide` | edge-agent/roamerx_edge/navigation_boundary.py:163-184 | the whole leg stays on the side of each fence polygon on which it starts |
| `RouteSafety.LegGuarantee` | edge-agent/roamerx_edge/navigation_boundary.py:163-184 | on every boundary, with a margin above half a step plus slack, every point of an accepted leg, not only its samples, would be admitted with the margin reduced by half a step |
| `RouteSafety.StepAtMostFiveCentimetres` | edge-agent/roamerx_edge/navigation_boundary.py:177-178 | legs up to 100 m are sampled at most 5 cm apart |
| `RouteSafety.RouteGuarantee` | edge-agent/roamerx_edge/navigation_boundary.py:163-184 | on every boundary, for margins above 2.5 cm plus slack and legs up to 100 m, every point of an accepted route is admitted with the margin reduced by 2.5 cm |
| `RouteExactness.BladeIsCut` | edge-agent/roamerx_edge/navigation_boundary.py:163-184 | at or below half a step there is, for every leg, an applied boundary whose samples are all accepted although the leg runs through a forbidden edge |
| `RouteExactness.SamplingIsExact` | edge-agent/roamerx_edge/navigation_boundary.py:163-184 | over all applied boundaries without unmeasurably short edges, acceptance implies that the leg touches no fence if and only if the margin exceeds half a sampling step |
| `BoundaryManager.NavigationBoundaryManager.Apply` | edge-agent/roamerx_edge/navigation_boundary.py:87-123 | a well-formed command puts its active zones in force at once; it is answered as accepted only if the mask and the record were written too, so a refused one may have taken effect; a malformed one changes nothing |
| `BoundaryManager.NavigationBoundaryManager.ActivateMap` | edge-agent/roamerx_edge/navigation_boundary.py:125-136 | a different map drops the boundary and, if that could be recorded, starts a fresh event stream; otherwise memory and stream stay; the same map changes nothing |
| `BoundaryManager.NavigationBoundaryManager.ValidateRoute` | edge-agent/roamerx_edge/navigation_boundary.py:163-184 | on the fields, for every route and the empty one: a mismatch if and only if a revision is expected and map or revision differ; otherwise accepted exactly when, on the active map, all waypoints and interior samples are admitted, and a refusal is the verdict of one of these points |
| `BoundaryManager.RevisionAnswers` | edge-agent/roamerx_edge/navigation_boundary.py:87-161 | from a well-formed command on, until the next one or another map, a call on its map that expects a revision is a mismatch exactly when it is not the one applied |
| `BoundaryManager.BoundaryLasts` | edge-agent/roamerx_edge/navigation_boundary.py:87-136 | malformed commands, activations of the same map, observations and retries leave the boundary in force |
| `BoundaryManager.NavigationBoundaryManager.ObservePose` | edge-agent/roamerx_edge/navigation_boundary.py:195-259 | one observation reports the violation, the tightest limit and the events from the remembered to the current sets, and keeps the reconstruction invariant |
| `BoundaryManager.NavigationBoundaryManager.RetrySpeedApplication` | edge-agent/roamerx_edge/navigation_boundary.py:189-190 | forgets the applied limit, so that the next observation reports it again, and keeps the reconstruction invariant |
| `BoundaryManager.Scan` | edge-agent/roamerx_edge/navigation_boundary.py:204-236 | the two zone loops compute the violation text, the region keys, the near keys and the smallest limit of the restricted zones entered |
| `BoundaryManager.SpeedLimit` | edge-agent/roamerx_edge/navigation_boundary.py:225-250 | the limit is attained by a restricted zone containing the pose and is at most that of every other such zone; it is absent if and only if there is none |
| `BoundaryManager.SpeedLimitIs` | edge-agent/roamerx_edge/navigation_boundary.py:225-236 | the limit is the least one among the restricted zones around the pose that state one, and absent if and only if none does |
| `BoundaryManager.NearKeysAre` | edge-agent/roamerx_edge/navigation_boundary.py:212-224 | a key is near if and only if a warning zone of that key does not contain the pose and comes within its warning distance |
| `BoundaryManager.ActiveZonesInOrder` | edge-agent/roamerx_edge/navigation_boundary.py:100-108 | dropping inactive zones keeps the order of the others, on every list of zones |
| `BoundaryManager.RegionsAndNearDisjoint` | edge-agent/roamerx_edge/navigation_boundary.py:212-224 | with distinct zone keys no zone is both entered and near |
| `BoundaryManager.ObservationReconstructs` | edge-agent/roamerx_edge/navigation_boundary.py:237-259 | folding all events so far gives the remembered regions, the near set (with distinct keys) and the last reported limit; every observation keeps this |
| `ZoneEvents.RegionsReconstructed` | edge-agent/roamerx_edge/navigation_boundary.py:237-252 | folding entered and exited over the four event batches gives the new region set, in whatever order each set is walked |
| `ZoneEvents.NearReconstructed` | edge-agent/roamerx_edge/navigation_boundary.py:237-252 | folding approaching, approach_cleared and entered gives the new near set if and only if no key stays near while entering and none stops being near while staying inside |
| `BoundaryManager.SharedKeyLosesWarning` | edge-agent/roamerx_edge/navigation_boundary.py:212-252 | two zones under one key: driving into the one while still near the other makes the folded near set differ from the real one, in whatever order events are emitted |
| `KeepoutMask.WriteKeepoutMask` | edge-agent/roamerx_edge/boundary_filter_mask.py:58-112 | a raster is produced if and only if the grid is usable (at most a hundred million cells) and a configured local map is readable and has the same size, resolution and origin; every pixel is 255 when its cell is free and 0 otherwise, and the count of occupied cells is exact |
| `KeepoutMask.MaskCellsAgree` | edge-agent/roamerx_edge/boundary_filter_mask.py:89-112 | a mask cell is free exactly when validate_point accepts its centre and observe_pose reports no violation there |
| `KeepoutMask.WorldRoundTrip` | edge-agent/roamerx_edge/manual_map_cleanup.py:129-135 | rotating into the world and back returns the local coordinates |
| `KeepoutMask.GridRoundTrip` | edge-agent/roamerx_edge/manual_map_cleanup.py:129-137 | every point of a cell, not only its centre, is projected back into that cell |
| `KeepoutMask.CentreRoundTrip` | edge-agent/roamerx_edge/boundary_filter_mask.py:95-103 | the centre the mask writer computes for a row and column is projected back to that row and column |
| `KeepoutMask.KeepMask` | edge-agent/roamerx_edge/manual_map_cleanup.py:125-145 | a cloud point is dropped if and only if it is finite, inside the image and its cell was erased |
| `KeepoutMask.ErasedIff` | edge-agent/roamerx_edge/manual_map_cleanup.py:125-145 | a finite point anywhere in a cell is dropped if and only if the cell lies in the image and was erased |
| `SelfHealing.SumUpsertAll` | edge-agent/roamerx_edge/local_store.py:595-640 | merging query rows into the summary on conflict adds exactly their sums |
| `SelfHealing.SumGrouped` | edge-agent/roamerx_edge/local_store.py:601-609 | grouping by day and label loses and duplicates nothing |
| `SelfHealing.JoinOnce` | edge-agent/roamerx_edge/local_store.py:627-631 | the join with old episodes yields each of their actions exactly once |
| `SelfHealing.ActionsSplit` | edge-agent/roamerx_edge/local_store.py:619-650 | finished actions plus stray unfinished ones equal what the join counts plus the finished actions that stay |
| `SelfHealing.PruneKeepsFaults` | edge-agent/roamerx_edge/local_store.py:587-715 | every fault line of the statistics is the same before and after pruning |
| `SelfHealing.PruneActionsBy` | edge-agent/roamerx_edge/local_store.py:587-715 | every action line grows by exactly the unfinished actions of pruned episodes |
| `SelfHealing.PruneKeepsActionsIff` | edge-agent/roamerx_edge/local_store.py:587-715 | the action statistics survive pruning if and only if no unfinished action hangs below a finished episode older than the cutoff |
| `SelfHealing.StrayIsCounted` | edge-agent/roamerx_edge/local_store.py:619-650 | the failing side on the smallest tables: one finished old episode with one unfinished action, whose line grows from nothing to one |
| `SelfHealing.NoOrphans` | edge-agent/roamerx_edge/local_store.py:641-664 | after a prune every remaining action has its episode, so the foreign-key check finds nothing |
| `SelfHealing.PruneKeepsSound` | edge-agent/roamerx_edge/local_store.py:587-669 | primary keys, the foreign key and positive counts survive a prune |
| `SelfHealing.PruneTwice` | edge-agent/roamerx_edge/local_store.py:587-669 | a second prune with the same cutoff changes nothing |
| `PruneExactness.EpisodeStaysIff` | edge-agent/roamerx_edge/local_store.py:601-653 | an episode survives a prune if and only if it is unfinished or began at or after the cutoff |
| `PruneExactness.ActionStaysIff` | edge-agent/roamerx_edge/local_store.py:619-653 | an action survives a prune if and only if its episode does |
| `PruneExactness.SummaryGains` | edge-agent/roamerx_edge/local_store.py:595-640 | per day, category and label the summary gains exactly the counts, successes and durations of the rows that left |
| `SelfHealing.ReportedIs` | edge-agent/roamerx_edge/local_store.py:671-715 | a line is reported if and only if something was counted, and count times mean is the whole duration |
| `PruneExactness.ReconciledAction` | edge-agent/roamerx_edge/local_store.py:546-566 | a finished action is left alone; an open one is closed now as a failure with the time it has run |
| `PruneExactness.ReconciledEpisode` | edge-agent/roamerx_edge/local_store.py:567-583 | an open episode is closed now as a failure, at the level and with the kind of its last action if it has one |
| `SelfHealing.ReconcileKeepsSound` | edge-agent/roamerx_edge/local_store.py:546-585 | closing open records keeps keys and references |
| `SelfHealing.ReconcileLeavesNoStray` | edge-agent/roamerx_edge/local_store.py:546-585 | after reconciling no unfinished action is left, so pruning miscounts none |
| `SelfHealing.StartupConservesHistory` | edge-agent/roamerx_edge/app.py:85-86 | reconcile followed by prune leaves every reported line of both tables as it was before the prune, and the tables sound |
| `SelfHealing.ReconcileCountsInterrupted` | edge-agent/roamerx_edge/local_store.py:567-583 | reconciling adds every interrupted episode to its fault line once, as a failure |
| `SelfHealStore.LocalStore.Reconcile` | edge-agent/roamerx_edge/local_store.py:546-585 | the two updates reach the reconciled tables and report how many rows of each were open |
| `SelfHealStore.LocalStore.Prune` | edge-agent/roamerx_edge/local_store.py:587-669 | grouped inserts and deletes reach the pruned tables for the cutoff of max(1, days) and report the rows removed; which rows these are is stated by PruneExactness |
| `SelfHealStore.LocalStore.StartAction` | edge-agent/roamerx_edge/local_store.py:503-519 | a known action id keeps its row; a new one is stored below its episode and refused exactly when that episode is missing |
| `SelfHealStore.LocalStore.StartEpisode` | edge-agent/roamerx_edge/local_store.py:447-473 | an episode id already present keeps its row |
| `Outbox.KeepNewestExact` | edge-agent/roamerx_edge/local_store.py:197-225 | retention keeps the newest rows of its type up to the limit and leaves every other type untouched |
| `Outbox.EnqueueBounds` | edge-agent/roamerx_edge/local_store.py:360-372 | after an enqueue the type enqueued is within its limit and no other type has changed |
| `Outbox.RunKeepsBounds` | edge-agent/roamerx_edge/local_store.py:360-400 | over every interleaving of enqueues, acknowledgements and replay steps ids stay ordered, keys unique, and a capped type stays within its limit from its first enqueue on |
| `Outbox.RowIsAccounted` | edge-agent/roamerx_edge/local_store.py:360-400 | over every run a stored row of an uncapped type is still stored, or its key was acknowledged, or a replay sent exactly this row with success |
| `Outbox.EnqueuedIsAccounted` | edge-agent/roamerx_edge/local_store.py:360-400 | so is every uncapped message enqueued under a free key, from the moment it is enqueued |
| `Outbox.AckKeyIs` | edge-agent/roamerx_edge/local_store.py:395-400 | after acknowledging a key no row carries it and every other row stays where it was |
| `Outbox.SendIs` | edge-agent/roamerx_edge/mqtt_client.py:246-261 | a send removes exactly the row handed over, and only if it succeeded and is no trajectory batch |
| `Outbox.PendingIs` | edge-agent/roamerx_edge/local_store.py:374-393 | the listing holds stored rows only, all of them when they fit, and is as long as the limit allows |
| `Outbox.PendingFirst` | edge-agent/roamerx_edge/local_store.py:374-393 | a row left out of a listing is a trajectory batch, or all rows listed are older and not trajectories |
| `Outbox.TrajectoryAlwaysBounded` | edge-agent/roamerx_edge/local_store.py:197-210 | a store opened by a new process never holds more trajectory batches than its limit, over any run |
| `Outbox.ReplayKeepsTrajectories` | edge-agent/roamerx_edge/mqtt_client.py:246-261 | replay steps interleaved with anything but key acknowledgements and new batches remove no trajectory batch |
| `Outbox.ReplayProgress` | edge-agent/roamerx_edge/mqtt_client.py:246-261 | k successful replays deliver exactly the first k * limit non-trajectory rows in id order and remove them |
| `Outbox.ReplayDrains` | edge-agent/roamerx_edge/mqtt_client.py:246-261 | ceil(n / limit) successful replays deliver and remove all n non-trajectory rows whatever trajectory backlog exists |
| `Uplink.OutboxStore.Enqueue` | edge-agent/roamerx_edge/local_store.py:360-372 | insert-or-ignore by key followed by the retention of that type |
| `Uplink.OutboxStore.Prune` | edge-agent/roamerx_edge/local_store.py:197-225 | the delete statement leaves exactly the newest rows of one type up to the limit |
| `Uplink.OutboxStore.ListPending` | edge-agent/roamerx_edge/local_store.py:374-393 | the listing is every non-trajectory row in id order followed by trajectory rows, cut at the limit |
| `Uplink.OutboxStore.AcknowledgeKey` | edge-agent/roamerx_edge/local_store.py:395-400 | removes exactly the rows with that key |
| `Uplink.EdgeMqttClient.ReplayOutbox` | edge-agent/roamerx_edge/mqtt_client.py:246-261 | the loop performs one send step per listed row, for every pattern of broker answers, and nothing when disconnected |
| `Uplink.EdgeMqttClient.Publish` | edge-agent/roamerx_edge/mqtt_client.py:210-244 | a message is handed over, dropped only when disconnected at quality of service 0, or enqueued |
| `Uplink.SendEachSucceeds` | edge-agent/roamerx_edge/mqtt_client.py:251-260 | when every answer is success the loop is the uninterrupted replay the progress theorems speak about |
| `Uplink.EnqueueStores` | edge-agent/roamerx_edge/local_store.py:360-372 | an enqueued message is in the outbox afterwards unless a row with its key was there |
| `Commands.CommandProcessor.HandleCommand` | edge-agent/roamerx_edge/command_processor.py:150-423 | one delivery appends exactly its effects: duplicate check, acknowledgement, execution, result, and the second result when publishing the first raises; which effects these are is stated by FirstDelivery and RepeatsRepublish |
| `CommandOutcomes.FirstDelivery` | edge-agent/roamerx_edge/command_processor.py:150-423 | a whole first delivery executes exactly when it is admitted, its acknowledgement is published and a task is prepared, and after that publication; the stored result is the given one or the failure of the first call that failed; a task is forced out exactly when it fails once its acknowledgement exists; what is stored is published |
| `CommandOutcomes.DeliveredAfterAbandon` | edge-agent/roamerx_edge/command_processor.py:150-423 | the same holds of a delivery that follows a handler given up at any effect |
| `Commands.RunIsSafe` | edge-agent/roamerx_edge/command_processor.py:150-423 | every interleaving of deliveries, of handlers abandoned at any effect and of results stored by other threads leaves a log in which each effect is justified by what is before it |
| `Commands.ExecutesAtMostOnce` | edge-agent/roamerx_edge/command_processor.py:150-423 | no command id executes twice, restarts included |
| `Commands.ExecutesOnlyAccepted` | edge-agent/roamerx_edge/command_processor.py:150-423 | at every execution an accepting acknowledgement of that id is already durable |
| `Commands.RefusedNeverExecutes` | edge-agent/roamerx_edge/command_processor.py:150-423 | an id whose refusal was stored executes neither before nor after |
| `Commands.AcksAreFinal` | edge-agent/roamerx_edge/local_store.py:239-261 | over every run a stored acknowledgement never changes, whatever results are stored |
| `Commands.ResultReplacedOnlyAfterRaise` | edge-agent/roamerx_edge/command_processor.py:352-422 | over every run the handler stores a second result of a command only after publishing the first one raised |
| `Commands.ResultsAreFinal` | edge-agent/roamerx_edge/local_store.py:250-261 | without a raising publication and without results of other threads a stored result never changes |
| `Commands.ResultReplacedIff` | edge-agent/roamerx_edge/command_processor.py:352-422 | a whole delivery stores two results if and only if it is the first one, was accepted and executed, has a result and could not publish it |
| `Commands.ReplacedResultWitness` | edge-agent/roamerx_edge/command_processor.py:352-422 | a delivery that succeeds and whose stored success becomes INTERNAL_ERROR |
| `Commands.RepeatsRepublish` | edge-agent/roamerx_edge/command_processor.py:150-163 | after any run a redelivery publishes exactly the stored acknowledgement and the stored result, executes nothing and changes no row |
| `SymlinkTree.WalkFrame` | edge-agent/roamerx_edge/map_version_pointer.py:36-73 | resolving a path depends only on the entries it consults |
| `SymlinkTree.ConsultedAt` | edge-agent/roamerx_edge/map_version_pointer.py:36-73 | an entry consulted on the way is itself the start of a resolution with the same end |
| `MapPointer.CoherentServes` | edge-agent/roamerx_edge/map_version_pointer.py:36-66 | on a coherent disk every required path resolves to an existing file of the one serving directory |
| `MapPointer.TemporaryIsInvisible` | edge-agent/roamerx_edge/map_version_pointer.py:68-73 | creating or dropping the temporary link changes no required path |
| `MapPointer.PointerCreated` | edge-agent/roamerx_edge/map_version_pointer.py:43-50 | aiming a new pointer at the directory in use keeps that directory serving |
| `MapPointer.RequiredInstalled` | edge-agent/roamerx_edge/map_version_pointer.py:52-53 | replacing one required path by its link through the pointer keeps the serving directory |
| `MapPointer.OptionalInstalled` | edge-agent/roamerx_edge/map_version_pointer.py:52-53 | rewriting an optional entry keeps the serving directory |
| `MapPointer.PointerMoved` | edge-agent/roamerx_edge/map_version_pointer.py:55 | re-pointing moves all required paths together to the new directory |
| `MapPointer.NotThroughSibling` | edge-agent/roamerx_edge/map_version_pointer.py:52-53 | no required path resolves through another one |
| `MapPointer.MigrationStartsCoherent` | edge-agent/roamerx_edge/map_version_pointer.py:40-50 | required paths that resolve to one real directory other than the root, with no pointer yet, are a coherent start |
| `MapPointer.AgreeingStartIsCoherent` | edge-agent/roamerx_edge/map_version_pointer.py:36-50 | a start whose paths resolve to D/name is coherent if D is not the root and an existing pointer names D |
| `MapPointer.FirstLinkBreaks` | edge-agent/roamerx_edge/map_version_pointer.py:43-53 | otherwise the first compatibility link is served neither from D nor from any other one directory: it resolves to itself, or leaves D while another path stays in D |
| `MapPointer.FilesInRootStart` | edge-agent/roamerx_edge/map_version_pointer.py:36-50 | a disk with the required files in the map directory itself: a start from which the switch is not crash-consistent |
| `MapPointer.StalePointerStart` | edge-agent/roamerx_edge/map_version_pointer.py:36-50 | a disk whose required paths lead to one product and whose pointer leads to another: the other kind of such a start |
| `MapSwitch.Disk.ReplaceSymlink` | edge-agent/roamerx_edge/map_version_pointer.py:68-73 | a failed or unfinished replacement leaves at most the temporary; a finished one leaves exactly the new link |
| `MapSwitch.Disk.ActivateMapVersion` | edge-agent/roamerx_edge/map_version_pointer.py:13-66 | from a coherent start every intermediate disk serves all required paths from the old directory, and only the last rename, if reached, serves them from the new one; over starts whose paths resolve to D/name, all states of a completed run serve one directory if and only if D is not the root and an existing pointer names D; a missing source file or a pointer that is no link is refused, exactly then, without a change; after a switch every required and optional name is the link through the pointer, which names the source; no other entry but the temporaries has changed |
| `MapSwitch.SwitchedServes` | edge-agent/roamerx_edge/map_version_pointer.py:52-66 | after a switch every required or optional name whose file the source holds resolves to that file |
| `Arbiter.RecoveryArbiter.TryAcquire` | edge-agent/roamerx_edge/recovery_arbiter.py:80-89 | grants if and only if no lease is live and the budget is not exhausted, with the next generation |
| `Arbiter.RecoveryArbiter.TryReleaseGeneration` | edge-agent/roamerx_edge/recovery_arbiter.py:100-116 | releases exactly a live lease of that owner and generation |
| `Arbiter.RunsAreOrdered` | edge-agent/roamerx_edge/recovery_arbiter.py:80-128 | over every run generations number the leases granted and a live lease is the newest one |
| `Arbiter.GenerationsIncrease` | edge-agent/roamerx_edge/recovery_arbiter.py:80-89 | granted generations strictly increase |
| `Arbiter.StaleReleaseIsHarmless` | edge-agent/roamerx_edge/recovery_arbiter.py:91-116 | releasing any grant but the newest, by value or by generation, changes nothing after any run |
| `Arbiter.LeasesAreDisjoint` | edge-agent/roamerx_edge/recovery_arbiter.py:80-120 | between two grants some operation gave the first lease up |
| `Arbiter.BudgetBoundsLeases` | edge-agent/roamerx_edge/recovery_arbiter.py:33-54 | without a reset the leases granted equal the attempts recorded and never exceed the maximum |
| `Arbiter.ExhaustionPersists` | edge-agent/roamerx_edge/recovery_arbiter.py:42-49 | once exhausted, with a clock that never runs backwards, nothing is granted until a reset |
| `Arbiter.GrantsIff` | edge-agent/roamerx_edge/recovery_arbiter.py:33-89 | after any run since a reset a request is granted if and only if no lease is live, fewer than ten were granted, less than 180 s have passed since the first began and less than 1.2 m were asked for in all |
| `Arbiter.BudgetIs` | edge-agent/roamerx_edge/recovery_arbiter.py:33-54 | the budget is the number, the first start and the total distance of the leases granted since the reset |
| `Arbiter.LeaseNames` | edge-agent/roamerx_edge/recovery_arbiter.py:80-89 | a granted lease carries the owner, reason and time of its request and is the live one |
| `Arbiter.ReleasedIff` | edge-agent/roamerx_edge/recovery_arbiter.py:91-120 | a live lease ends exactly when it is given back itself, by its owner and generation, or by force |
| `Arbiter.RenewedGrants` | edge-agent/roamerx_edge/recovery_arbiter.py:51-128 | after any run, giving the lease back and resetting the budget, in either order, lets the next request through |
| `Fusion.StepKeepsInv` | edge-agent/roamerx_edge/app.py:1406-1532 | every step keeps generations growing, one profile per generation, and the recorded lease never ahead of the node nor naming a nominal one |
| `Fusion.RunKeepsInv` | edge-agent/roamerx_edge/app.py:1406-1617 | this holds over every interleaving of activation, transition, restore, expiry, lost calls and stale reports |
| `Fusion.FinishChangesIff` | edge-agent/roamerx_edge/app.py:1446-1489 | a thread changes the node if and only if its call arrives, Edge still records the generation the thread holds and the node still has it |
| `Fusion.FinishSets` | edge-agent/roamerx_edge/app.py:1446-1489 | when it does, the node has the profile asked for under the next generation, which Edge records if it is temporary |
| `Fusion.HoldTakesEffect` | edge-agent/roamerx_edge/app.py:1406-1444 | a hold that arrives leaves the node in LIO hold exactly when it replaces the recorded or reported lease or nothing, and is recorded and held if answered; otherwise node and record stay |
| `Fusion.ExpiryEnds` | robot/src/localization/localization/apps/localization_nodelet.cpp:3022-3105 | expiry makes a temporary profile nominal under a new generation and leaves a nominal one |
| `Fusion.LaterProfilesAreSpared` | edge-agent/roamerx_edge/app.py:1504-1617 | over every run, nothing that came into force after a restore, time-out or hand-over took hold of its generation is overwritten by it |
| `Fusion.SupersededIsPowerless` | edge-agent/roamerx_edge/app.py:1571-1617 | once the node has moved past a generation, no later transition under it changes the node, whatever happens between |
| `Fusion.NewerProfileSurvives` | edge-agent/roamerx_edge/app.py:1446-1532 | a profile that no thread of Edge holds survives every interleaving of restores, time-outs, hand-overs and expiry bookkeeping in which no restore adopts it (no record while the report shows it) |
| `Fusion.RestoreAdopts` | edge-agent/roamerx_edge/app.py:1504-1521 | a restore that finds no record turns a reported temporary profile nominal, whoever set it |
| `Fusion.ForeignProfileLostIff` | edge-agent/roamerx_edge/app.py:1504-1532 | some interleaving of release work changes a profile that is not held by Edge if and only if that profile is temporary |
| `Fusion.LiveLeaseDroppedIff` | edge-agent/roamerx_edge/app.py:1523-1532 | a lease in force is forgotten without the node moving exactly when the expiry bookkeeping of that generation reads a stale or missing report |
| `Fusion.LocalizationNode.Set` | robot/src/localization/localization/apps/localization_nodelet.cpp:3022-3105 | the node compares the expected generation, sets, and numbers the change; lost calls and lost answers included |
| `Fusion.EdgeFusion.TransitionProfile` | edge-agent/roamerx_edge/app.py:1446-1489 | the setter is reached only for the recorded generation; acceptance means the node held it |
| `Fusion.EdgeFusion.ActivateLioHold` | edge-agent/roamerx_edge/app.py:1406-1444 | the new lease replaces the recorded or reported one conditionally and is recorded only when answered |
| `Fusion.EdgeFusion.BeginRestoring` | edge-agent/roamerx_edge/app.py:1504-1515 | the first half of a restore takes the recorded generation, or adopts the reported temporary one |
| `Fusion.EdgeFusion.FinishWith` | edge-agent/roamerx_edge/app.py:1516-1521 | the second half is a transition under the generation taken in the first |
| `Fusion.EdgeFusion.ForgetExpired` | edge-agent/roamerx_edge/app.py:1523-1532 | the record is dropped exactly when it still names the expired generation and the report does not |
| `RecoveryWorker.RecoveryGuarantees` | edge-agent/roamerx_edge/app.py:1966-2331 | whatever other threads do and collaborators answer: the lock is free at the end, this lease is not live, a live lease is newer and untouched by the release, at most max(M, 2) cycles start when M > 0, none starts after a cancellation, every resume is justified by a search, its correction and any gate it has to pass; no seed is tried after a cancellation, no seed or global search while an operator is at work, and only a paused task is resumed late or held |
| `RecoveryWorker.CyclesWithinMaximumIff` | edge-agent/roamerx_edge/app.py:2203-2278 | at most M cycles start if and only if M is at least two or no successful feature search of the first cycle restarts the loop |
| `RecoveryWorker.OneMayBecomeTwo` | edge-agent/roamerx_edge/app.py:2231-2237 | answers for which a maximum of one gives two cycles |
| `RecoveryWorker.LoopBound` | edge-agent/roamerx_edge/app.py:2013-2319 | from any point of the loop the number of cycles stays within max(M, 2) |
| `Progress.ProgressiveResumes` | edge-agent/roamerx_edge/app.py:2018-2110 | undisturbed, a progressive search that works, with a correction that stands and a gate that passes, is the whole recovery: the log is cycle, search, correction, gate, resume |
| `Progress.SeedResumes` | edge-agent/roamerx_edge/app.py:2111-2202 | when the first k seeds fail and the next one works, exactly these k + 1 are tried, after the progressive search if there is one, and the task is resumed |
| `Progress.GlobalResumes` | edge-agent/roamerx_edge/app.py:2203-2267 | when every seed fails and no feature is found, the global search is made after all seeds, corrected, and the task resumed |
| `Progress.GivesUpAfterAll` | edge-agent/roamerx_edge/app.py:2013-2319 | when everything fails, exactly the configured number of cycles is made, each with every seed, the first one also globally, and then the task is put into safe hold; without a maximum never |
| `Progress.LateHandoffResumes` | edge-agent/roamerx_edge/app.py:2190-2200 | a late hand-off that has become stable resumes the task without another search |
| `Progress.EventuallyResumes` | edge-agent/roamerx_edge/app.py:2013-2319 | whatever failed before: if from some point on local searches work and their corrections stand, and the maximum leaves cycles to get there, the worker ends by resuming the task |
| `Progress.ResumedIff` | edge-agent/roamerx_edge/app.py:1534-1569 | the task is resumed exactly when the recovery call returns and a paused task is activated again |
| `Progress.PollCompletesIff` | edge-agent/roamerx_edge/app.py:1894-1908 | an accepted correction stands if and only if completion is the first thing reported within the polls |
| `Interference.NothingIsDone` | edge-agent/roamerx_edge/app.py:1981-2012 | an operator at work, a cancellation or an error before the first cycle: nothing is done |
| `Interference.UnpausedEnds` | edge-agent/roamerx_edge/app.py:2013-2134 | a worker whose task is no longer paused makes at most the cycle it has begun and, while there is a task, searches from no seed, not globally, and holds nothing |
| `Interference.SupersededProgressiveEnds` | edge-agent/roamerx_edge/app.py:2018-2110 | a superseded progressive search is the last thing the worker does |
| `Interference.SupersededSeedEnds` | edge-agent/roamerx_edge/app.py:2135-2202 | so is a superseded search from any seed: no later seed, no escalation, no other cycle, no safe hold |
| `Interference.RefusedGateFallsBack` | edge-agent/roamerx_edge/app.py:2018-2202 | a refusing final gate leaves the task paused until a search from a seed has worked |
| `Interference.UnsettledEscalates` | edge-agent/roamerx_edge/app.py:2190-2267 | a late hand-off that stays unstable ends the seeds of the first cycle and the global search follows |
| `RecoveryWorker.Correct` | edge-agent/roamerx_edge/app.py:1875-1908 | the correction stands exactly by no interface, NDT unavailable or a completed transaction, and logs which |
| `RecoveryWorker.WaitForHandoff` | edge-agent/roamerx_edge/app.py:1774-1802 | after a hand-off that came late the log stays safe: a resume comes only behind an absolute-stable report |
| `RecoveryWorker.Pass` | edge-agent/roamerx_edge/app.py:2018-2319 | a pass asks for another one only after a successful feature search in the first cycle or below the maximum |
| `LateResumes.LateResumesTimelyIff` | edge-agent/roamerx_edge/app.py:1774-1908 | every resume after a cancellation, in every run, rests on a correction that a poll found completed by then, if and only if the collaborators promise three things: the correction interface is there, it never answers unavailable, and hand-offs settle in time |
| `LateResumes.PromisesMakeTimely` | edge-agent/roamerx_edge/app.py:1875-1908 | with all three promises kept, for all answers and moves of other threads, a resume at or after the cancellation follows a completed correction logged no later than it |
| `LateResumes.CompletedStillResumes` | edge-agent/roamerx_edge/app.py:1894-1902 | all promises kept and the task cancelled while the last poll reads the status: the task is resumed all the same |
| `LateResumes.CancelledStillResumes` | edge-agent/roamerx_edge/app.py:1880-1893 | answers that break one promise only, no correction interface or NDT unavailable, for which a cancelled worker resumes without a completed correction |
| `LateResumes.CancelledHandoffStillResumes` | edge-agent/roamerx_edge/app.py:2190-2200 | answers that break only the promise about hand-offs, for which a cancelled worker resumes after a late hand-off |
| `EdgeRecovery.EdgeAgent.HandleLoss` | edge-agent/roamerx_edge/app.py:1619-1710 | a worker starts if and only if the situation calls for it (no operator, not NDT alone under RTK, a task, no mapping), the lock is free, the arbiter grants and the thread starts; the lock is leaked exactly when a call between taking it and starting the thread raises |
| `EdgeRecovery.LeakIsForever` | edge-agent/roamerx_edge/app.py:1681-1710 | once leaked, the lock stays taken and no loss starts a worker, over every later sequence of losses, arbiter uses and worker ends |
| `EdgeRecovery.LockLostIff` | edge-agent/roamerx_edge/app.py:1681-1710 | from a free lock, over every such sequence, the lock is held without a worker to release it if and only if some loss leaked it |
| `EdgeRecovery.EdgeAgent.Recover` | edge-agent/roamerx_edge/app.py:1966-2331 | the worker with its finally block does what its answers determine, on the shared arbiter and lock; what that is, is stated on answers and log by Progress and Interference |
| `EdgeRecovery.EdgeAgent.Work` | edge-agent/roamerx_edge/app.py:1981-2321 | the while loop with its exits is the recursive loop the theorems speak about |
| `EdgeRecovery.EdgeAgent.SearchSeeds` | edge-agent/roamerx_edge/app.py:2135-2202 | the loop over seeds with its returns, its break and its nested wait |
| `EdgeRecovery.EdgeAgent.PollCorrection` | edge-agent/roamerx_edge/app.py:1894-1908 | the polling loop: a cancellation check before every status read |
| `EdgeRecovery.EdgeAgent.AskNext` | edge-agent/roamerx_edge/app.py:1954-1964 | between two steps of the worker other threads may cancel, pause, take over and use the arbiter in any way |
| `ScanContext.DescriptorDistance` | edge-agent/roamerx_edge/map_loop_closure.py:574-581 | the running total and count give the mean absolute gap over all rings and sectors |
| `ScanContext.DistanceShift` | edge-agent/roamerx_edge/map_loop_closure.py:568-581 | shifting both descriptors by the same amount keeps their distance |
| `ScanMeaning.DistanceIsMetric` | edge-agent/roamerx_edge/map_loop_closure.py:574-581 | the distance is non-negative, zero exactly on equal scans, symmetric, and obeys the triangle inequality |
| `ScanMeaning.DistanceIsMean` | edge-agent/roamerx_edge/map_loop_closure.py:574-581 | scans that differ by d in every cell are d apart |
| `ScanMeaning.TurnedIsFound` | edge-agent/roamerx_edge/map_loop_closure.py:600-609 | a scan is found again under any turn at distance zero |
| `ScanContext.BestIsMinimum` | edge-agent/roamerx_edge/map_loop_closure.py:600-609 | the reported distance is at most that of every shift and is attained by the reported shift |
| `ScanContext.BestIsRotationInvariant` | edge-agent/roamerx_edge/map_loop_closure.py:600-609 | turning query and stored scan by any two amounts keeps the best distance |
| `ScanContext.ShiftFollows` | edge-agent/roamerx_edge/map_loop_closure.py:600-609 | if one shift alone attains the minimum, turning the query by a and the stored scan by b moves the reported shift by a - b modulo 60 |
| `ScanContext.RingKeyIsRotationInvariant` | edge-agent/roamerx_edge/map_loop_closure.py:77 | ring keys do not change when a scan is turned |
| `ScanMeaning.RingKeyIsMean` | edge-agent/roamerx_edge/map_loop_closure.py:77 | the key of a ring lies between any bounds on its cells |
| `ScanContext.YawRange` | edge-agent/roamerx_edge/map_loop_closure.py:605-609 | the reported yaw lies in the half-open turn (-pi, pi] |
| `ScanMeaning.YawIsAngle` | edge-agent/roamerx_edge/map_loop_closure.py:605-609 | the yaw is six degrees per sector, less a whole turn beyond half of one |
| `ScanContext.SearchShifts` | edge-agent/roamerx_edge/map_loop_closure.py:600-609 | the loop over all 60 shifts finds the minimum and the yaw of the first shift attaining it |
| `ScanContext.RetrieveCandidates` | edge-agent/roamerx_edge/map_loop_closure.py:584-612 | the loops return the shortlist by ring key, scored over all shifts, sorted by distance and cut at five |
| `ScanContext.RetrievalIsRotationInvariant` | edge-agent/roamerx_edge/map_loop_closure.py:584-612 | turning every stored scan, the query included, by its own amount leaves the retrieved keyframes, their order and their distances unchanged |
| `ScanMeaning.ScoresAre` | edge-agent/roamerx_edge/map_loop_closure.py:584-596 | exactly the keyframes at least thirty away in time are scored, by their ring key distance |
| `ScanMeaning.ShortlistIs` | edge-agent/roamerx_edge/map_loop_closure.py:584-599 | the shortlist holds at most fifteen scored keyframes and leaves out only ones no nearer, and only when full |
| `ScanMeaning.RetrievalIs` | edge-agent/roamerx_edge/map_loop_closure.py:584-612 | the result is sorted, at most five long, drawn from the shortlist, and leaves out nothing nearer |
| `Sorting.SortIsSorted` | edge-agent/roamerx_edge/map_loop_closure.py:137 | sorting by a key yields an ascending permutation |
| `LoopSelection.Select` | edge-agent/roamerx_edge/map_loop_closure.py:85-143 | classification, deduplication, sorting, the cap by pair and the flag rewriting leave exactly the final rows and the thirty nearest |
| `LoopSelection.KeptByPair` | edge-agent/roamerx_edge/map_loop_closure.py:138-143 | testing the ordered pair against the kept set is testing membership in the kept list |
| `LoopSelection.SelectionIsConsistent` | edge-agent/roamerx_edge/map_loop_closure.py:85-143 | a row is flagged accepted if and only if it is in the accepted list and if and only if its reason is empty; at most thirty are |
| `LoopSelection.PairsAreUnique` | edge-agent/roamerx_edge/map_loop_closure.py:107-110 | no unordered keyframe pair is accepted twice |
| `LoopSelection.CapKeepsNearest` | edge-agent/roamerx_edge/map_loop_closure.py:137-143 | every kept distance is at most every distance dropped by the cap |
| `LoopSelection.CapOnlyWhenFull` | edge-agent/roamerx_edge/map_loop_closure.py:138-143 | the cap rejects a loop only when thirty others are kept |
| `LoopSelection.PairsAreCovered` | edge-agent/roamerx_edge/map_loop_closure.py:96-143 | every acceptable pair is represented by one row that is accepted or was dropped by the cap alone |
| `LoopSelection.CountsAddUp` | edge-agent/roamerx_edge/map_loop_closure.py:198-211 | accepted plus rejected rows equal the number of candidates |
| `LoopSelection.AcceptedMeans` | edge-agent/roamerx_edge/map_loop_closure.py:214-247 | an accepted loop is first in rank, verified, within 0.3 in descriptor distance, 2 to 20 m apart in the map, within 0.6 rad and 2.5 m of the estimate |
| `LoopSelection.AcceptableIsAccepted` | edge-agent/roamerx_edge/map_loop_closure.py:96-143 | such a candidate is accepted unless an earlier one of the same two keyframes is acceptable or the cap took its place |
| `LoopSelection.ReasonIs` | edge-agent/roamerx_edge/map_loop_closure.py:214-247 | a row that is not acceptable names the first test it fails |
| `LowBattery.ChargeControlAdapter.ObserveLowBattery` | edge-agent/roamerx_edge/charge_control_adapter.py:295-359 | one sample moves the counters, the latch and its stored row, and raises the alert exactly when the latch closed and its write came back |
| `LowBattery.ChargeControlAdapter.StopCharging` | edge-agent/roamerx_edge/charge_control_adapter.py:178-190 | a manual stop restarts confirmation and opens the inhibition window |
| `LowBattery.AlertsAreLatched` | edge-agent/roamerx_edge/charge_control_adapter.py:295-359 | between two alerts some processed sample was at or above the re-arm level, restarts and failing writes included |
| `LowBattery.LatchSurvivesRestartIff` | edge-agent/roamerx_edge/charge_control_adapter.py:51-52 | over all runs with restarts the latch holds if and only if a store is attached |
| `LowBattery.RestartForgetsWithoutStore` | edge-agent/roamerx_edge/charge_control_adapter.py:357-359 | without a store, whatever the configuration, low samples alone give two alerts around a restart |
| `LowBattery.AlertsKeepCooldown` | edge-agent/roamerx_edge/charge_control_adapter.py:328-338 | two alerts of one process are a cooldown apart |
| `LowBattery.TriggersIff` | edge-agent/roamerx_edge/charge_control_adapter.py:327-356 | the latch closes exactly when enough samples counted since the last reset, the cooldown is over and no alert is running |
| `LowBattery.AlertsAreConfirmed` | edge-agent/roamerx_edge/charge_control_adapter.py:295-356 | every alert follows the configured number of low samples, at least one, with nothing resetting between them |
| `LowBattery.AlertMeans` | edge-agent/roamerx_edge/charge_control_adapter.py:295-356 | an alert means a low sample outside the inhibition, off the charger, with no alert running and no episode open |
| `LowBattery.NoAlertInWindow` | edge-agent/roamerx_edge/charge_control_adapter.py:178-190 | over every run no alert falls into the window a manual stop opens, and samples in it reset the confirmation |
| `LowBattery.LowSamplesAlert` | edge-agent/roamerx_edge/charge_control_adapter.py:327-356 | without an open episode exactly the configured number of low samples in a row raises the alert |
| `LowBattery.EpisodeEndsIff` | edge-agent/roamerx_edge/charge_control_adapter.py:295-326 | an episode ends exactly with a processed sample at or above the re-arm level |
| `LowBattery.EndedAlertsAgain` | edge-agent/roamerx_edge/charge_control_adapter.py:295-359 | an ended episode stays ended over a restart, and the configured number of low samples then alerts again |
| `VoiceSegments.VoiceCommandListener.Capture` | dev-agent/roamerx_dev_agent/voice_listener.py:107-165 | the chunk loop publishes exactly the segments of the declarative history and leaves its noise window |
| `VoiceSegments.VoiceCommandListener.IsLoud` | dev-agent/roamerx_dev_agent/voice_listener.py:68-79 | an idle chunk is loud only after four calibrating ones and at the adaptive threshold; a quiet one enters the noise window |
| `VoiceSegments.ThresholdIs` | dev-agent/roamerx_dev_agent/voice_listener.py:61-79 | once calibrated the threshold is the larger of the fixed one and the multiplied median, before that the fixed one |
| `VoiceSegments.MedianIs` | dev-agent/roamerx_dev_agent/voice_listener.py:61-67 | half of the window lies at or below the median and half at or above |
| `VoiceSegments.RoundIs` | dev-agent/roamerx_dev_agent/voice_listener.py:61-67 | rounding is to the nearest integer, halves to the even one |
| `VoiceSegments.QuietFillsWindow` | dev-agent/roamerx_dev_agent/voice_listener.py:68-79 | while nothing is loud the window holds the latest levels, suppressed chunks left out |
| `VoiceSegments.SpeechLeavesNoise` | dev-agent/roamerx_dev_agent/voice_listener.py:68-79 | speech, suppressed and loud chunks never enter the noise window |
| `VoiceSegments.CalibrationEnds` | dev-agent/roamerx_dev_agent/voice_listener.py:68-79 | four unsuppressed chunks set the window, and a chunk at the threshold is then speech |
| `VoiceSegments.FullIs` | dev-agent/roamerx_dev_agent/voice_listener.py:107-133 | chunks more than 64 bytes short are skipped and the others keep their order |
| `VoiceSegments.PeakIs` | dev-agent/roamerx_dev_agent/voice_listener.py:137-155 | the peak is the greatest loudness of the chunks from the opener on |
| `VoiceSegments.SilenceIs` | dev-agent/roamerx_dev_agent/voice_listener.py:137-156 | the closing silence is the run of quiet chunks at the end, up to the last loud one |
| `VoiceSegments.RunIsGood` | dev-agent/roamerx_dev_agent/voice_listener.py:107-165 | over every capture segments are in order and apart, hold no suppressed chunk, close exactly when first due, start with their whole quiet pre-roll, and every loud chunk is accounted for |
| `VoiceSegments.SegmentSize` | dev-agent/roamerx_dev_agent/voice_listener.py:149-157 | no segment exceeds max(max_chunks, pre_roll + 1) chunks |
| `VoiceSegments.SegmentsPartitionStream` | dev-agent/roamerx_dev_agent/voice_listener.py:81-165 | each published segment is the joined audio of one contiguous slice of the full-length chunks with its peak, of size between min_chunks and max(max_chunks, pre_roll + 1), in order and disjoint |

## Left out

- Floating-point rounding; all geometry, scores and durations are exact reals.
- RouteExactness.SamplingIsExact: speaks of boundaries without edges of nonzero length up to a nanometre; with such edges the last nanometre above half a step is not decided.
- The square root: leg lengths enter as a number whose square is the squared distance, sample counts are computed from squares and proved equal to the ceiling formula.
- Saving the boundary and restoring it at start-up; structured logs of boundary events.
- Mask files: PGM and YAML text, atomic writing and checksums, the permissive all-free mask, parsing of map headers.
- Trigonometry and library numerics: sine and cosine are two reals with square sum one, pi is a positive real, wrapped yaw errors and six-digit roundings are inputs.
- Geometric verification, pose graph optimisation, PCD reading and writing.
- Order of statistics lines and of the summary table; only the contents of lines are compared.
- Clock movement inside one prune or one budget check: one cutoff and one time per call.
- Finishing self-healing records other than by the start-up reconcile: the theorems hold for any sound tables, so they do not depend on how rows were finished.
- Concurrent handling of one command on two broker threads: deliveries are handled one after another, each possibly abandoned, while results of other work are stored at any moment.
- What a command does: execution, preparation and validation are one effect or an arbitrary answer.
- Map product files that are themselves links: source directories are real directories with regular files, as the product builder leaves them; required paths that run through dot files or reach the pointer other than by a compatibility link; concurrent switches by two processes.
- Recovery seeds, timing, alerts and operator text: search results, polls and gates are arbitrary answers.
- RecoveryWorker.RecoveryGuarantees: with a maximum of zero cycles the source loops until stopped; the model bounds such a run by an arbitrary `lifetime`.
- The alert thread and its callback; full-charge and thermal handling of the charging adapter.
- Speech recognition and publishing after a segment is cut; an exception while publishing ends the capture, which is the end of the stream in the model. The samples after resampling and their loudness are inputs.
- Mapping, navigation stack, audio, media and teleoperation adapters, the task executor, safety policy, configuration, the cloud platform and the other dev-agent modules: orchestration of outside processes or short case analyses.
