# HyperFaaS leaf, ingress and control plane: verified models

HyperFaaS is a function-as-a-service platform. Ingresses route requests to leaves, leaves admit
them to sandboxes on workers and scale the sandboxes, and a control plane distributes one
versioned configuration. This project models seven cores of it in Dafny and proves what they
promise over whole runs. Where the source changes things step by step under a lock, the model has
a class whose methods are proved against a step function on values, and the theorems are about
every sequence of those steps. Where the source is lock-free or distributed, the model is a
transition system whose steps are single atomic operations or single message deliveries. What each
step does is also stated apart from the function that defines it, in the fields it touches
(`PoolEffects`, `ActuatorEffects`, `ScalingOutputs`) or as a sum over the run that led there
(`PoolLimits`, `PlacementHistory`, `PublicationHistory`). That the steps are there to be taken is shown by
continuations of every run: calls can return, leases, drains, starts, stops, batches and reloads can end, and
streams and watches can catch up (`PoolProgress`, `EvictionProgress`, `PlacementAlone`, `StreamProgress`,
`ConfigProgress`, `BatchCanEnd`, `ReloadCanFinish`).

| core | modules |
|---|---|
| admission pool | `PoolModel`, `PoolProofs`, `PoolRuns`, `PoolTheorems`, `PoolLimits`, `PoolEffects`, `PoolProgress`, `DataPlane` |
| eviction protocol, actuator, strict batches | `ActuatorModel`, `ActuatorProofs`, `ActuatorEffects`, `EvictionModel`, `EvictionProofs`, `EvictionTheorems`, `EvictionProgress`, `StopOwnership`, `MaxInstances`, `EvictionExamples`, `Autoscaling`, `WorkerSandbox`, `StrictBatches` |
| placement reservations | `PlacementSteps`, `PlacementProofs`, `PlacementHistory`, `PlacementAlone`, `Placement` |
| routing-state stream, index and publication | `CapacityStream`, `StreamRuns`, `StreamProgress`, `StreamExamples`, `Reporting`, `CapacityRoutes`, `AvailableCapacity`, `Publication`, `PublicationHistory`, `HashRouting` |
| consistent hashing with bounded loads | `Chbl`, `BoundedScheduler` |
| autoscaling policy | `ScalingWindow`, `ScalingPolicy`, `ScalingOutputs` |
| configuration distribution | `ConfigDistribution`, `ConfigProgress`, `ConfigStore` |

`Tallies`, `Rotation`, `Sorting`, `Membership` and `Options` hold what several of them share.

How the source's surroundings appear: goroutines blocked on a channel or a context are phases of a
call record, and each wakeup is a step of its own; map iteration orders are arbitrary sequences or
assign-such-that choices; clocks, hashes, telemetry, scheduler picks and network delays are
parameters or open choices; floats are reals; machine integers are unbounded. One process
incarnation of each component is fixed, as both revision counters start over on a restart.

Seven promises turn out to have an exact boundary, and the model keeps the code as it is:

* TakeHighWater never under-reports the peak of executing plus queued requests, and reports at most
  one more, because granting a queued request counts it twice for an instant. It reports the peak
  itself if and only if no queued request was granted at the peak demand since the last take
  (`HighWaterCoversPeak`, `HighWaterOvershoots`).
* Drain waits for the leases of its sandbox to finish, but a release in a closed pool returns before it
  would wake the drain. In an open pool a waiting drain can return exactly if no lease is left; one that
  is waiting when the pool closes can return later if and only if no lease was left at that moment, and
  otherwise ends only with its context (`DrainReturnsWhenIdle`, `CloseStrandsDrain`, `StrandedDrain`).
* max_instances bounds every start reservation, but not what the decisions lead to. With starts
  capped by M the future size stays within M if and only if no stop is cancelled while it is at M,
  and it never exceeds M by more than the number of stops cancelled at M or above
  (`MaxHoldsUnlessCancelled`, `CrossesMax`, `FutureWithinOverrides`, `CancelledStopExceedsMax`).
* A reload that finishes after a Stop calls a model that is gone: ApplyConfig's second critical
  section does not ask whether Stop has run since its first, and panics if and only if it has
  (`FinishFaults`, `StopDuringReload`). Nothing in the repository calls the exported Stop, so this
  needs an outside caller.
* Two overlapping ApplyConfig calls would publish a picker under the wrong version, exactly if the
  call that finishes is not the one that began last; the goroutine that delivers configurations
  serializes them (`OverlappingReloads`, `OverlapHappens`, `PublicationContract`).
* Publish wakes nobody for a value it published last, so a subscriber that has sent a transient
  value can stay behind. With the published values equal to the source, no wakeup pending and
  nothing in flight, the index is current if and only if the two also agreed at the subscriber's
  last emit, that is, if its snapshot was what had been published; a heartbeat repairs it
  (`DrainedIndexIsCurrent`, `StaleUntilWoken`, `HeartbeatRepairs`).
* Instance ids are drawn at random. The actuator's books survive the end of a start exactly if its
  id was never tracked before, and a worker's history survives a registration exactly if the id was
  not removed before (`EndRunStart`, `RegisterInstance`); the runs take ids to be unused.

One apparent gap is none: removeInstance skips RecordStop for an empty address, but a stop gets there
only after Drain, and the pool that Drain asks never admits an instance without an address. So every
instance that leaves is recorded exactly once (`LeavesOnce`, `StopNeedsAddress`).

The documentation of RoutingFrame says a revision is monotonic within one stream; the code uses
one counter per leaf, which is what lets a reconnecting ingress keep its last revision, and the
model follows the code.

## Model

| member | source | states |
|---|---|---|
| PoolTheorems.ReadyListIsExact | pkg/leaf/dataplane/pool.go:122-278 | in every reachable open state the ready list has no duplicates and is exactly the non-draining members below the limit, and is empty while anyone is queued |
| PoolTheorems.FirstComeFirstServed | pkg/leaf/dataplane/pool.go:280-408 | once a call is granted, no earlier arrival is queued then or at any later point of the run |
| PoolTheorems.RoundRobin | pkg/leaf/dataplane/pool.go:341-360 | consecutive arrivals lease the ready sandboxes in list order, each once before any twice |
| PoolTheorems.NeverFaults | pkg/leaf/dataplane/pool.go:362-408 | in no run is a lease released twice, a drained channel closed twice, or a result channel sent to twice |
| PoolTheorems.ResultsAreFinal | pkg/leaf/dataplane/pool.go:313-338 | a sent result is never replaced, and a blocked call outside the queue finds one |
| PoolTheorems.LeasesAreConserved | pkg/leaf/dataplane/pool.go:341-387 | executing is accepted minus completed and the sum of inFlight over all sandboxes ever added; active counts the non-draining members |
| PoolTheorems.DrainingNeverGains | pkg/leaf/dataplane/pool.go:218-265 | no step raises the lease count of a sandbox that is draining before and after it |
| PoolTheorems.ReturnedUntilFinish | pkg/leaf/dataplane/pool.go:218-265 | a drain that has returned its finish function stays so until that function is called |
| PoolTheorems.DrainIsSafe | pkg/leaf/dataplane/pool.go:218-278 | from Drain's return to finish the sandbox has no lease, none outstanding in the history, and is off the ready list |
| PoolTheorems.ClosedNeverGrants | pkg/leaf/dataplane/pool.go:480-495 | after Close no request is accepted and the queue is empty, in every later state |
| PoolTheorems.PeakIsMaximum | pkg/leaf/dataplane/pool.go:433-441 | the recorded peak is attained since the last take and bounds every demand since |
| PoolTheorems.GrantPeakIsMaximum | pkg/leaf/dataplane/pool.go:389-408 | the recorded grant peak bounds the demand of every grant of a queued call since the last take, and one of them attains it |
| PoolTheorems.HighWaterCoversPeak | pkg/leaf/dataplane/pool.go:469-478 | TakeHighWater is the largest demand since the last take or one more, and the former if and only if no queued call was granted at that demand since the last take |
| PoolTheorems.HighWaterOvershoots | pkg/leaf/dataplane/pool.go:341-408 | a run of two operations in which it reports 2 though demand never exceeded 1 |
| PoolLimits.StartLimitsHold | pkg/leaf/dataplane/pool.go:109-135 | without a Configure since the start no sandbox ever has more leases than the positive limit the pool was made with, or 200, and never more calls are queued than the depth it was made with, or 10000 |
| PoolLimits.ConfiguredLimitsHold | pkg/leaf/dataplane/pool.go:122-135 | from a Configure to the next the same holds of the settings it was given, except that a sandbox may keep leases, and the queue calls, from before it; neither grows beyond its limit |
| PoolLimits.LimitsHold | pkg/leaf/dataplane/pool.go:280-408 | between two reconfigurations a sandbox gains leases only below the limit and the queue grows only below the depth |
| PoolLimits.SettingsArePositive | pkg/leaf/dataplane/pool.go:115-128 | limit and depth are positive in every state of every run |
| PoolLimits.StepWithin | pkg/leaf/dataplane/pool.go:147-495 | every operation but Configure keeps both bounds and both settings |
| PoolEffects.ResultsFit | pkg/leaf/dataplane/pool.go:389-408 | in every run a waiting call is sent a failure exactly if its context is done or the pool closes, and is granted otherwise |
| PoolEffects.DoneIfCancelled | pkg/leaf/dataplane/pool.go:313-338 | in every run the context of a call is done exactly if it has been cancelled since the call came |
| PoolEffects.ArriveEffect | pkg/leaf/dataplane/pool.go:280-312 | a request is refused exactly by a closed pool or by a full queue when it cannot be served at once; a served one leases the front of the ready list; the queue never grows beyond the depth |
| PoolEffects.AddEffect | pkg/leaf/dataplane/pool.go:147-166 | nothing for a missing id, an empty address or a closed pool; otherwise the instance is a member with this target and no other member changes |
| PoolEffects.RemoveEffect | pkg/leaf/dataplane/pool.go:202-214 | exactly the named member leaves, and its leases go on |
| PoolEffects.WantedIs | pkg/leaf/dataplane/pool.go:168-174 | Sync wants an id exactly if a usable target names it, with the last such target |
| PoolEffects.SyncEffect | pkg/leaf/dataplane/pool.go:168-200 | the members are then the wanted instances and the draining ones, each wanted one with its target |
| PoolEffects.DrainEffect | pkg/leaf/dataplane/pool.go:218-237 | a drain begins exactly on a member of an open pool that is not draining, which leaves the ready list |
| PoolEffects.RestoreEffect | pkg/leaf/dataplane/pool.go:267-278 | the sandbox is admitted again exactly if it is still the draining member it was |
| PoolEffects.FinishStoppedEffect | pkg/leaf/dataplane/pool.go:247-257 | the sandbox leaves the pool exactly if it is still the draining member it was |
| PoolEffects.ReceiveEffect | pkg/leaf/dataplane/pool.go:313-322 | a call takes its lease, or gives it back if its context is done, or returns the error |
| PoolEffects.WithdrawEffect | pkg/leaf/dataplane/pool.go:323-338 | a cancelled call is out of the queue and what was sent to it is released |
| PoolEffects.ReleaseEffect | pkg/leaf/dataplane/pool.go:362-387 | exactly this lease ends and one completion is counted |
| PoolEffects.CloseEffect | pkg/leaf/dataplane/pool.go:480-495 | exactly the queued calls are failed |
| PoolEffects.DispatchFleet | pkg/leaf/dataplane/pool.go:389-408 | dispatching changes no member, target or drain |
| PoolProgress.CallCanReturn | pkg/leaf/dataplane/pool.go:313-338 | after any run a blocked call can return with what was sent to it, and once its context is cancelled it can return with an error, out of the queue |
| PoolProgress.LeaseCanEnd | pkg/leaf/dataplane/pool.go:362-387 | after any run a call that holds a lease can release it |
| PoolProgress.DrainCanFinish | pkg/leaf/dataplane/pool.go:218-265 | after any run an idle member of an open pool can be drained, returned and stopped, and just it is gone |
| PoolProgress.DrainReturnsWhenIdle | pkg/leaf/dataplane/pool.go:218-243 | in every reachable state of an open pool a waiting drain can return exactly if its sandbox has no lease |
| PoolProgress.CloseStrandsDrain | pkg/leaf/dataplane/pool.go:362-387 | a drain waiting when the pool closes can return in any later state if and only if its sandbox had no lease at the close |
| PoolProgress.StrandedDrain | pkg/leaf/dataplane/pool.go:362-387 | a run of five operations after which a drain waits, and cannot return, although no lease is left on its sandbox |
| PoolRuns.RunInv | pkg/leaf/dataplane/pool.go:75-107 | the whole pool invariant, and highWater as the larger of the peak demand and one more than the peak demand of a grant, in every state of every run |
| PoolRuns.DispatchMark | pkg/leaf/dataplane/pool.go:389-441 | the dispatch loop raises the mark to one more than the demand of its first grant, and not at all without one |
| PoolRuns.StepMarks | pkg/leaf/dataplane/pool.go:122-495 | every operation but an arrival and a take raises the mark to one more than the demand of its highest grant, and no further |
| PoolRuns.StepMoves | pkg/leaf/dataplane/pool.go:122-495 | every operation only adds results, leases and history, moves the high-water mark with demand, and leaves other drains alone |
| PoolRuns.RunEvolves | pkg/leaf/dataplane/pool.go:280-339 | between any two states of a run results, returned calls and leases are kept and nobody rejoins the queue |
| PoolProofs.ConfigureInv | pkg/leaf/dataplane/pool.go:122-135 | Configure keeps the invariant for any new limit and any map order |
| PoolProofs.AddInv | pkg/leaf/dataplane/pool.go:147-166 | Add keeps the invariant, for new and known instances |
| PoolProofs.SyncInv | pkg/leaf/dataplane/pool.go:168-200 | Sync keeps the invariant, for any targets and map orders |
| PoolProofs.RemoveInv | pkg/leaf/dataplane/pool.go:202-214 | Remove keeps the invariant, with leases of the removed sandbox still counted |
| PoolProofs.DrainBeginInv | pkg/leaf/dataplane/pool.go:218-237 | starting a drain keeps the invariant |
| PoolProofs.SessionInv | pkg/leaf/dataplane/pool.go:239-253 | the wakeups of the draining goroutine keep the invariant |
| PoolProofs.RestoreInv | pkg/leaf/dataplane/pool.go:267-278 | restore and finish(false) keep the invariant and serve the queue |
| PoolProofs.FinishStoppedInv | pkg/leaf/dataplane/pool.go:247-257 | finish(true) keeps the invariant |
| PoolProofs.ArriveInv | pkg/leaf/dataplane/pool.go:280-312 | Acquire's first critical section keeps the invariant |
| PoolProofs.ReceiveInv | pkg/leaf/dataplane/pool.go:313-322 | receiving a result, or giving a late grant back, keeps the invariant |
| PoolProofs.WithdrawInv | pkg/leaf/dataplane/pool.go:323-338 | a cancelled call leaving the queue or returning its grant keeps the invariant |
| PoolProofs.ReleaseInv | pkg/leaf/dataplane/pool.go:362-387 | releasing an outstanding lease finds a positive count and keeps the invariant |
| PoolProofs.CloseInv | pkg/leaf/dataplane/pool.go:480-495 | Close keeps the invariant |
| PoolProofs.DispatchOk | pkg/leaf/dataplane/pool.go:389-408 | the dispatch loop keeps the books and ends with no waiter or no ready sandbox |
| DataPlane.SandboxPool.constructor | pkg/leaf/dataplane/pool.go:109-120 | a new pool is the initial state of the runs, with the given limit and depth where positive and 200 and 10000 where not |
| DataPlane.SandboxPool.DispatchLocked | pkg/leaf/dataplane/pool.go:389-408 | the loop over the heap is the dispatch function |
| DataPlane.SandboxPool.RefreshReady | pkg/leaf/dataplane/pool.go:410-425 | brings one sandbox's place in the ready list up to date and changes nothing else |
| DataPlane.SandboxPool.AcquireLocked | pkg/leaf/dataplane/pool.go:341-360 | leases the front sandbox, in place |
| DataPlane.SandboxPool.Configure | pkg/leaf/dataplane/pool.go:122-135 | valid afterwards; the limit is the given one if positive, else 200, the depth the given one if positive, else 10000; and the state is the Configure step for some map order |
| DataPlane.SandboxPool.Add | pkg/leaf/dataplane/pool.go:147-166 | valid afterwards, the Add step with a fresh or the known object, nothing on unusable targets |
| DataPlane.SandboxPool.Sync | pkg/leaf/dataplane/pool.go:168-200 | valid afterwards, the Sync step for some map orders and fresh objects |
| DataPlane.SandboxPool.Remove | pkg/leaf/dataplane/pool.go:202-214 | valid afterwards, exactly the named member is forgotten |
| DataPlane.SandboxPool.Drain | pkg/leaf/dataplane/pool.go:218-237 | valid afterwards; one error exactly on a closed pool, the other exactly on an unknown or draining instance of an open one |
| DataPlane.SandboxPool.DrainReturned | pkg/leaf/dataplane/pool.go:239-247 | valid afterwards, the drain has returned |
| DataPlane.SandboxPool.Restore | pkg/leaf/dataplane/pool.go:267-278 | valid afterwards, the restore step |
| DataPlane.SandboxPool.FinishStopped | pkg/leaf/dataplane/pool.go:247-257 | valid afterwards, the stopped sandbox is out of the pool |
| DataPlane.SandboxPool.Acquire | pkg/leaf/dataplane/pool.go:280-312 | valid afterwards; closed, served by the front of the ready list, queued or refused exactly as the state before it demands, and the new state is the arrival step |
| DataPlane.SandboxPool.Receive | pkg/leaf/dataplane/pool.go:313-322 | valid afterwards, the call returns with its result |
| DataPlane.SandboxPool.Withdraw | pkg/leaf/dataplane/pool.go:323-338 | valid afterwards, the call has left the queue or given its grant back |
| DataPlane.SandboxPool.Release | pkg/leaf/dataplane/pool.go:362-387 | valid afterwards, the release step |
| DataPlane.SandboxPool.Close | pkg/leaf/dataplane/pool.go:480-495 | valid afterwards, every queued call failed |
| DataPlane.SandboxPool.TakeHighWater | pkg/leaf/dataplane/pool.go:469-478 | reports the mark and restarts it from current demand |
| DataPlane.SandboxPool.Snapshot | pkg/leaf/dataplane/pool.go:443-467 | the counters, with executing as accepted minus completed; available is the sum of free slots over admissible members; positive exactly if a sandbox is ready, zero while anyone is queued |
| DataPlane.Lease.Release | pkg/leaf/dataplane/pool.go:65-73 | only the first call releases the slot |
| EvictionTheorems.NeverEvictsLive | pkg/leaf/autoscaling/actuator.go:453-564 | for all runs with late, reordered, repeated and lost messages, what a relist or an event evicts is not in its worker's map then or ever after |
| EvictionTheorems.DepartedIsGone | pkg/leaf/autoscaling/actuator.go:544-564 | whatever left the leaf is out of its worker's map, or it left through a stop and its process has ended |
| EvictionTheorems.RemovalEvicts | pkg/leaf/autoscaling/actuator.go:503-540 | in every run a removal event leaves no instance with its id tracked on its worker and all others as they were; if one was tracked exactly one departure is recorded, by the event, and otherwise none |
| EvictionTheorems.StartedIsTracked | pkg/leaf/autoscaling/actuator.go:754-831 | in every run a start that ends well is tracked on its worker as reported, and enters the pool exactly if the pool is open and id and address are there |
| EvictionTheorems.StoppedIsGone | pkg/leaf/autoscaling/actuator.go:1087-1119 | in every run a confirmed stop leaves its instance neither tracked nor, if it was tracked, in the pool |
| EvictionProgress.RelistCanFollow | pkg/leaf/autoscaling/actuator.go:453-497 | after any run a worker can be relisted, and then everything tracked there is in its map |
| EvictionProgress.StartCanFinish | pkg/leaf/autoscaling/actuator.go:754-831 | after any run an admitted start with an unused id can be carried out, ending tracked on its worker, in the map, and in the pool if it has an id and an address |
| EvictionProgress.StopCanFinish | pkg/leaf/autoscaling/actuator.go:617-652 | after any run the stop of an instance that is tracked and in the pool can be carried out, ending in neither and out of the map |
| EvictionProgress.CanFail | pkg/leaf/autoscaling/actuator.go:617-646 | after any run a stop that has not ended can fail, and so can a waiting start |
| EvictionTheorems.RelistConverges | pkg/leaf/autoscaling/actuator.go:453-497 | after a relist at the worker's current revision every tracked instance there is in the worker's map |
| EvictionTheorems.CountersAreExact | pkg/leaf/autoscaling/actuator.go:453-540 | in every reachable state the three counters are the counts they summarise, and pending starts are the open jobs |
| EvictionTheorems.LeavesOnce | pkg/leaf/autoscaling/actuator.go:544-564 | an instance is tracked in one place or has left once, for ever, and RecordStop was called for it exactly as often as it left |
| EvictionTheorems.StopNeedsAddress | pkg/leaf/autoscaling/actuator.go:617-652 | a stop of an instance without an address never gets past Drain and can only be taken back; what leaves through a stop has an address, and so has what removeInstance finds |
| StopOwnership.StopsAreOwned | pkg/leaf/autoscaling/actuator.go:617-652 | in every reachable state a tracked instance is stopping exactly while a stop goroutine runs for it, and then just one does |
| StopOwnership.NoStopIsLeftOver | pkg/leaf/autoscaling/actuator.go:1042-1078 | with no stop goroutine running no stop is pending |
| StopOwnership.RunOwned | pkg/leaf/autoscaling/actuator.go:453-652 | flags and running stops agree for every tracked id, and a stop's instance is tracked on no other worker, over every run |
| EvictionTheorems.StartDiscipline | pkg/leaf/autoscaling/actuator.go:1162-1191 | a reservation raises the future size by one, not above an enforced target or max_instances |
| EvictionTheorems.StopDiscipline | pkg/leaf/autoscaling/actuator.go:1026-1040 | a stop within the target takes exactly the smallest of count, excess and running instances, never below the target |
| EvictionTheorems.VictimsAreExact | pkg/leaf/autoscaling/actuator.go:1042-1059 | the victims are exactly the instances whose flag went up, in order, and nothing else changes |
| EvictionTheorems.CancelStopRaises | pkg/leaf/autoscaling/actuator.go:1061-1078 | cancelling raises the future size by one exactly if the instance was stopping |
| MaxInstances.StepRaises | pkg/leaf/autoscaling/actuator.go:453-1191 | a step raises the future size exactly if it reserves a start or cancels the stop of a stopping instance, by one, and a start not above its own max_instances |
| MaxInstances.CrossesMax | pkg/leaf/autoscaling/actuator.go:1061-1191 | in a run with starts capped by M a step takes the future size from at most M to above M if and only if it cancels a stop at M |
| MaxInstances.FutureWithinOverrides | pkg/leaf/autoscaling/actuator.go:1061-1191 | in such a run the future size is at most M plus the number of stops cancelled at M or above |
| MaxInstances.MaxHoldsUnlessCancelled | pkg/leaf/autoscaling/actuator.go:1061-1191 | in such a run the future size stays within M if and only if no stop is cancelled at M |
| EvictionExamples.CancelledStopExceedsMax | pkg/leaf/autoscaling/actuator.go:353-398 | a run of six steps of strict batches with max_instances 1 in every start whose future size becomes 2 when draining the stopped instance fails |
| MaxInstances.FailedStopCancels | pkg/leaf/autoscaling/actuator.go:624-646 | a stop that fails is cancelled exactly if its instance is still tracked |
| EvictionProofs.RelistIsSound | pkg/leaf/autoscaling/actuator.go:453-497 | an instance a snapshot evicts was removed by its worker no later than the snapshot's revision |
| EvictionProofs.LiveAtStable | pkg/worker/sandbox.go:434-452 | what was in the map at a revision is not changed by anything later |
| EvictionProofs.RunInv | pkg/worker/sandbox.go:271-275 | the protocol invariant in every state of every run |
| ActuatorProofs.ReconcileOk | pkg/leaf/autoscaling/actuator.go:453-497 | a relist keeps the books and turns each eviction into one departure |
| ActuatorProofs.StopsAfterExact | pkg/leaf/autoscaling/actuator.go:487-489 | the guarded decrements of the relist loop take exactly the evicted stops |
| ActuatorProofs.HandleRemovedOk | pkg/leaf/autoscaling/actuator.go:503-540 | a removal event keeps the books |
| ActuatorProofs.RemoveStoppedOk | pkg/leaf/autoscaling/actuator.go:1087-1119 | removal after a stop keeps the books |
| ActuatorProofs.CancelStopOk | pkg/leaf/autoscaling/actuator.go:1061-1078 | cancelling a stop keeps the books |
| ActuatorProofs.StopVictimsOk | pkg/leaf/autoscaling/actuator.go:1042-1059 | reserving stops keeps the books and marks as many as asked for or available |
| ActuatorProofs.ReserveStartOk | pkg/leaf/autoscaling/actuator.go:1162-1191 | reserving a start keeps the books |
| ActuatorProofs.EndStartOk | pkg/leaf/autoscaling/actuator.go:754-831 | both ends of a start keep the counters exact and success adds exactly the new instance; the invariant is kept if and only if its id was never tracked before |
| ActuatorEffects.ReconcileEffect | pkg/leaf/autoscaling/actuator.go:453-497 | a relist keeps an instance exactly if the snapshot lists it, one of the two has no revision, or the instance is newer, and records each of the others as a departure |
| ActuatorEffects.HandleRemovedEffect | pkg/leaf/autoscaling/actuator.go:503-540 | a removal event takes out the entry with its id exactly if there is one and its revision, where both have one, is not newer, with one departure; other entries stay |
| ActuatorEffects.RemoveStoppedEffect | pkg/leaf/autoscaling/actuator.go:1087-1119 | the end of a stop takes out exactly the entry with its id, recorded if it has an address |
| ActuatorEffects.CancelStopEffect | pkg/leaf/autoscaling/actuator.go:1061-1078 | a cancelled stop lowers the flag of exactly the entry with its id |
| ActuatorEffects.ReserveStartEffect | pkg/leaf/autoscaling/actuator.go:1162-1191 | a start is reserved exactly if the worker exists, each limit that applies leaves room, and the future size is below each bound that applies |
| ActuatorEffects.VictimsAreFirst | pkg/leaf/autoscaling/actuator.go:1042-1059 | before an instance that was marked, every instance of its worker and of all earlier workers is stopping |
| ActuatorEffects.VictimsShort | pkg/leaf/autoscaling/actuator.go:1042-1059 | with fewer victims than asked for every instance is stopping |
| Autoscaling.SandboxActuator.ReconcileWorkerState | pkg/leaf/autoscaling/actuator.go:453-497 | the compacting loop is the relist step, books kept |
| Autoscaling.SandboxActuator.EvictTracked | pkg/leaf/autoscaling/actuator.go:544-564 | one RecordStop per removed instance, in order |
| Autoscaling.SandboxActuator.HandleSandboxRemoved | pkg/leaf/autoscaling/actuator.go:503-540 | the event step; the instance was known exactly if an entry with its id is tracked there whose revision, where both have one, is not newer than the event |
| Autoscaling.SandboxActuator.RemoveInstance | pkg/leaf/autoscaling/actuator.go:1087-1119 | the removal step with the last entry moved into the gap |
| Autoscaling.SandboxActuator.CancelStopping | pkg/leaf/autoscaling/actuator.go:1061-1078 | the cancel step |
| Autoscaling.SandboxActuator.InstancesForStop | pkg/leaf/autoscaling/actuator.go:1017-1024 | the victims and the new state of the stop step |
| Autoscaling.SandboxActuator.InstancesForStopWithinTarget | pkg/leaf/autoscaling/actuator.go:1026-1040 | the same, limited to the excess over the target |
| Autoscaling.SandboxActuator.ReserveLocalStart | pkg/leaf/autoscaling/actuator.go:1162-1191 | reserved or refused with the error of the first failing test, the tests written out in their order |
| Autoscaling.SandboxActuator.EndRunStart | pkg/leaf/autoscaling/actuator.go:754-831 | the start is given back, and tracked on success; valid afterwards if and only if the id was never tracked before |
| Autoscaling.SandboxActuator.SetTarget | pkg/leaf/autoscaling/actuator.go:279-295 | only the target changes |
| Autoscaling.SandboxActuator.TryBeginBatch | pkg/leaf/autoscaling/actuator.go:243-263 | a batch begins exactly if none is active, with as many starts as the scale is raised; scale and flag written out |
| Autoscaling.SandboxActuator.StrictBatchFailed | pkg/leaf/autoscaling/actuator.go:419-425 | one failure takes one off the logical scale, which is positive |
| Autoscaling.SandboxActuator.ReleaseBatch | pkg/leaf/autoscaling/actuator.go:336-351 | the handoff is free again |
| StrictBatches.OneBatchAtATime | pkg/leaf/autoscaling/actuator.go:243-278 | every batch before the last has been released with no start running |
| StrictBatches.ReleasedScale | pkg/leaf/autoscaling/actuator.go:336-425 | after an upscale batch the scale is the previous one plus the successes, for any completion order |
| StrictBatches.GuardIsUnused | pkg/leaf/autoscaling/actuator.go:419-425 | a failure never finds the scale at zero |
| StrictBatches.ScaleIsConserved | pkg/leaf/autoscaling/actuator.go:353-417 | between batches the scale is the sum of what the batches did |
| StrictBatches.BatchCanEnd | pkg/leaf/autoscaling/actuator.go:336-425 | after any run the active batch can end with any outcomes of its running starts in any order, the scale then being the previous one plus all its successes, or the target |
| WorkerSandbox.SandboxHost.RegisterInstance | pkg/worker/sandbox.go:271-275 | the instance enters the map at the next revision, which is returned; valid afterwards if and only if the id was not removed before |
| WorkerSandbox.SandboxHost.SandboxStateSnapshot | pkg/worker/sandbox.go:391-399 | the ids are those live at the returned revision |
| WorkerSandbox.SandboxHost.RemoveInstanceInternal | pkg/worker/sandbox.go:434-452 | removal at a revision of its own, announced once to every subscriber with room |
| WorkerSandbox.SandboxHost.BroadcastRemoval | pkg/worker/sandbox.go:481-490 | a non-blocking send to each subscriber |
| WorkerSandbox.SandboxHost.Subscribe | pkg/worker/sandbox.go:458-464 | a new subscriber with an empty channel |
| PlacementProofs.CountersAreHolders | pkg/leaf/runtime/placement.go:145-283 | under every interleaving of atomic steps the pending counters are the token holders |
| PlacementProofs.TokensAreBounded | pkg/leaf/runtime/placement.go:246-283 | they never exceed non-zero limits and no decrement of them finds zero |
| PlacementProofs.EffectiveOnce | pkg/leaf/runtime/placement.go:313-343 | a token takes effect at most once however often its copies are committed or cancelled |
| PlacementProofs.QuiescentCounters | pkg/leaf/runtime/placement.go:436-446 | with no call in progress the counters are the live reservations |
| PlacementHistory.InstancesAreCommits | pkg/leaf/runtime/placement.go:305-334 | under every interleaving a worker's instance count is the number of commits that have reached their add minus the number of RecordStops whose compare-and-swap lowered it |
| PlacementHistory.QuiescentInstances | pkg/leaf/runtime/placement.go:305-343 | with no call in progress it is the number of commits that won their slot minus the number of RecordStops that lowered it |
| PlacementAlone.ReservationAlone | pkg/leaf/runtime/placement.go:145-283 | the atomic steps of one undisturbed call reserve the first worker of its route below the token limit and the first free slot from the cursor on, with exactly one token in total and on the worker |
| PlacementAlone.NoReservationAlone | pkg/leaf/runtime/placement.go:145-283 | without a global token, a worker or an acceptance they leave no trace |
| PlacementAlone.FullAlone | pkg/leaf/runtime/placement.go:211-244 | with every slot taken they move the cursor and nothing else |
| PlacementAlone.CompleteAlone | pkg/leaf/runtime/placement.go:313-343 | the atomic steps of an undisturbed Commit or Cancel of a current token free the slot, give both tokens back, and a Commit adds one instance |
| PlacementAlone.StaleAlone | pkg/leaf/runtime/placement.go:336-343 | with any other token they change nothing |
| PlacementAlone.RecordStopAlone | pkg/leaf/runtime/placement.go:305-311 | the atomic steps of an undisturbed RecordStop take one off a positive instance count and nothing else |
| PlacementProofs.RunInv | pkg/leaf/runtime/placement.go:57-76 | the interleaving invariant in every state of every run |
| PlacementProofs.NextOk | pkg/leaf/runtime/placement.go:183-343 | every atomic step moves the counters exactly as it moves tokens between calls and slots |
| Placement.PlacementState.constructor | pkg/leaf/runtime/placement.go:57-76 | all counters zero and the source's number of slots |
| Placement.PlacementState.UpdateWorker | pkg/leaf/runtime/placement.go:79-84 | only the telemetry of an existing worker changes |
| Placement.PlacementState.ReserveGlobalStart | pkg/leaf/runtime/placement.go:246-256 | one more global token exactly if the limit allows it |
| Placement.PlacementState.ReserveWorker | pkg/leaf/runtime/placement.go:258-283 | one more worker token exactly if the worker accepts at both checks, else no trace |
| Placement.PlacementState.ClaimReservationSlot | pkg/leaf/runtime/placement.go:231-244 | the first free slot from the cursor on becomes reserved; fails exactly if there is none |
| Placement.PlacementState.NewReservation | pkg/leaf/runtime/placement.go:211-229 | a caller holding a global token always finds a slot when the total is limited |
| Placement.PlacementState.ScheduleBalanced | pkg/leaf/runtime/placement.go:183-209 | reserves exactly if a token, an accepting worker and a slot exist, for the first such worker; instances plus pending stay within the cap |
| Placement.PlacementState.ScheduleSnapshot | pkg/leaf/runtime/placement.go:145-181 | the same for the worker the scheduler picked |
| Placement.PlacementState.CompleteReservation | pkg/leaf/runtime/placement.go:336-343 | wins exactly on the slot's current generation |
| Placement.PlacementState.EndReservation | pkg/leaf/runtime/placement.go:313-334 | wins exactly on the slot's current generation; then one pending token less in total and on its worker, one instance more there if it is a commit and as many if not; every other worker keeps its counts; the cap holds |
| Placement.AcceptsExactly | pkg/leaf/runtime/placement.go:258-296 | a worker accepts exactly if by both reads it is healthy and schedulable or has not reported, its pending starts are below a non-zero limit, and those with its instances, counted or reported, below a non-zero cap |
| Placement.PlacementState.RecordStop | pkg/leaf/runtime/placement.go:305-311 | one instance less, if there is one |
| CapacityStream.DeltaBringsForward | pkg/leaf/state/routing.go:156-173 | applying a difference, in any order, to an index of the old view gives an index of the new view |
| CapacityStream.FullShowsView | pkg/leaf/state/routing.go:136-141 | applying a full frame gives an index of the view |
| CapacityStream.ListCapacities | pkg/leaf/state/routing.go:136-141 | lists every capacity once |
| CapacityStream.DiffCapacities | pkg/leaf/state/routing.go:156-173 | exactly the changed entries, and tombstones for what disappeared, each function once |
| CapacityStream.SameExactly | pkg/leaf/state/reporter.go:124-133 | two capacities count as equal exactly if they differ in no field but the function |
| StreamRuns.IndexFollowsProducer | pkg/ingress/routing/controller.go:220-249 | no frame of the session being read is rejected, and after it the index is the producer's view |
| StreamRuns.DrainedIndexIsSent | pkg/leaf/state/routing.go:66-113 | with nothing in flight the index is the view last sent |
| StreamRuns.LastEmit | pkg/leaf/state/routing.go:98-113 | a session's view is the snapshot of its last emit, and unless a wakeup is on its way nothing has been published since |
| StreamRuns.DrainedIndexIsCurrent | pkg/leaf/state/reporter.go:84-96 | with published values that agree with the source, no wakeup and nothing in flight, the index is the source if and only if the snapshot of the session's last emit agreed with what was published then |
| StreamExamples.StaleUntilWoken | pkg/leaf/state/reporter.go:84-96 | a run, for any two capacities of a function, after which nothing is left to do and the index shows the transient one |
| StreamRuns.OtherVersionsAreIgnored | pkg/ingress/routing/controller.go:220-249 | a frame of another version changes nothing |
| StreamRuns.HealthRule | pkg/ingress/routing/controller.go:220-249 | an accepted frame makes its leaf healthy exactly if it reports a healthy worker |
| StreamProgress.HeartbeatRepairs | pkg/leaf/state/reporter.go:104-108 | after any run with a stream being read, a heartbeat, its wakeup, an emit and the deliveries can follow, and then the index is the source |
| StreamProgress.ConnectCatchesUp | pkg/leaf/state/routing.go:66-113 | after any run without one the ingress can connect and the index then becomes the source |
| StreamRuns.RunInv | pkg/leaf/state/routing.go:116-152 | the stream invariant through source changes, publications, wakeups, coalescing, disconnects, reconnects and reloads |
| Reporting.Reporter.EmitFrame | pkg/leaf/state/routing.go:116-152 | a frame with the next revision that takes the subscriber from its own last view to the current one |
| Reporting.Reporter.Subscribe | pkg/leaf/state/routing.go:66-85 | a new subscriber with an empty view |
| Reporting.Reporter.NotifyRouting | pkg/leaf/state/routing.go:179-186 | every subscriber has exactly one wakeup pending |
| Reporting.Reporter.Publish | pkg/leaf/state/reporter.go:84-96 | a changed capacity is remembered and announced, a repeated one neither |
| Reporting.Reporter.PublishHeartbeat | pkg/leaf/state/reporter.go:104-108 | every subscriber is woken |
| Reporting.Reporter.PublishDeleted | pkg/leaf/state/reporter.go:111-122 | the tombstone is remembered and every subscriber woken |
| CapacityRoutes.RouteSlot | pkg/ingress/routing/availablecapacity.go:138-149 | the bisection finds the leaf's place in the sorted list |
| CapacityRoutes.PutOk | pkg/ingress/routing/availablecapacity.go:158-177 | inserting or replacing keeps the list sorted and sets exactly that leaf's share |
| CapacityRoutes.CutOk | pkg/ingress/routing/availablecapacity.go:179-191 | removing keeps the list sorted and drops exactly that leaf's share |
| AvailableCapacity.AvailableCapacityModel.constructor | pkg/ingress/routing/availablecapacity.go:12-18 | an empty, valid model |
| AvailableCapacity.AvailableCapacityModel.Upsert | pkg/ingress/routing/availablecapacity.go:158-177 | one leaf's view gains or changes one function; lists, dirty list and table stay consistent |
| AvailableCapacity.AvailableCapacityModel.Remove | pkg/ingress/routing/availablecapacity.go:179-191 | one leaf's view loses one function; the same consistency |
| AvailableCapacity.AvailableCapacityModel.Commit | pkg/ingress/routing/availablecapacity.go:196-222 | published table and lists equal the writer's sorted state, by one store per dirty list and one of the table, and it reports whether anything was dirty |
| AvailableCapacity.ReadersSeeOldOrNew | pkg/ingress/routing/availablecapacity.go:196-259 | a request beside a commit reads its function's list from before or from after it, whatever stores came before each of its two loads |
| AvailableCapacity.AvailableCapacityModel.ReplaceLeaf | pkg/ingress/routing/availablecapacity.go:55-93 | the leaf's part becomes the full frame, other leaves keep theirs; byLeaf and the lists mirror each other; a new picker is asked for exactly on a health change |
| AvailableCapacity.AvailableCapacityModel.Apply | pkg/ingress/routing/availablecapacity.go:95-128 | the leaf's part changes by the delta, other leaves keep theirs; the same mirror and result |
| AvailableCapacity.AvailableCapacityModel.LeafDisconnected | pkg/ingress/routing/availablecapacity.go:130-135 | only the leaf's health changes |
| AvailableCapacity.AvailableCapacityModel.MakePicker | pkg/ingress/routing/availablecapacity.go:224-237 | everything is published and the picker has exactly the leaves of the topology that are healthy now |
| AvailableCapacity.PublishedInRange | pkg/ingress/routing/availablecapacity.go:263-275 | published lists are sorted and name leaves of the topology only, so a pick stays within its health flags |
| AvailableCapacity.AvailableCapacityPicker.Pick | pkg/ingress/routing/availablecapacity.go:247-291 | a healthy leaf with the largest published share whenever one is advertised, never the final fallback; an error exactly without healthy leaves |
| AvailableCapacity.ChoiceExactly | pkg/ingress/routing/availablecapacity.go:247-291 | a pick goes to a healthy leaf whose published share no healthy leaf on the list exceeds, and counts on; with none on the list it goes by the hash and does not count |
| AvailableCapacity.AvailableCapacityPicker.ColdFallback | pkg/ingress/routing/availablecapacity.go:295-300 | the healthy leaf whose number is the hash modulo their count |
| AvailableCapacity.FindBest | pkg/ingress/routing/availablecapacity.go:260-275 | the largest share of a healthy leaf and the number of leaves that have it |
| AvailableCapacity.NthTie | pkg/ingress/routing/availablecapacity.go:279-289 | the chosen tied route, always found |
| AvailableCapacity.PicksGoRound | pkg/ingress/routing/availablecapacity.go:278-289 | consecutive picks of a function answer with the tied best leaves in turn, from the counter on |
| AvailableCapacity.TiesTakeTurns | pkg/ingress/routing/availablecapacity.go:278-289 | the answers of as many consecutive picks as there are ties are the tied leaves, each exactly once |
| Publication.PublicationContract | pkg/ingress/routing/controller.go:60-261 | after any run that has not ended in a faulty second half the engine answers exactly while serving, with the current version and the picker a rebuild would give; never between a reload's halves |
| PublicationHistory.HealthIsLastWord | pkg/ingress/routing/controller.go:60-261 | in every run, while a model is installed, a leaf is healthy in it if and only if since the reload that installed it the last accepted frame of the leaf or disconnect under its version was a frame with a healthy worker |
| PublicationHistory.LoadIsLastReported | pkg/ingress/routing/boundedloads.go:38-60 | under bounded loads the slot of a leaf holds the load of the last accepted frame since the reload that was full or carried one, and zero if that frame was full without one |
| PublicationHistory.LoadStartsAtZero | pkg/ingress/routing/boundedloads.go:18-60 | before the first such frame it holds zero |
| Publication.PendingSince | pkg/ingress/routing/controller.go:60-132 | while a reload is between its halves its first half is the latest, and the model is gone if and only if a Stop came since |
| Publication.FinishFaults | pkg/ingress/routing/controller.go:115-132 | the second half of a reload calls a missing model if and only if a Stop came since its first half |
| Publication.StopDuringReload | pkg/ingress/routing/controller.go:115-132 | the run of three steps that does |
| Publication.OverlappingReloads | pkg/ingress/routing/controller.go:60-122 | a finishing reload keeps the contract if and only if it is the one that began last |
| Publication.OverlapHappens | pkg/ingress/routing/controller.go:60-122 | two overlapping reloads that publish the picker of the newer policy under the older version |
| Publication.ReloadCanFinish | pkg/ingress/routing/controller.go:60-122 | after any run without a fault a newer reload can run through, and the engine then answers under its version with the picker of a new model |
| Publication.UpdateOk | pkg/ingress/routing/boundedloads.go:38-60 | an update that does not ask for a new picker leaves the old one equal to a rebuild |
| Publication.DisconnectedOk | pkg/ingress/routing/boundedloads.go:64-70 | the same for a disconnect |
| Publication.BuildPickerOk | pkg/ingress/routing/boundedloads.go:72-98 | the cached ring gives the same picker as a rebuild |
| HashRouting.NewTopology | pkg/ingress/routing/topology.go:17-35 | the configured ids, ascending and without duplicates, with the ring over them |
| HashRouting.HealthyLeaves | pkg/ingress/routing/topology.go:72-80 | the healthy ids in topology order |
| HashRouting.RingModel.ReplaceLeaf | pkg/ingress/routing/consistent.go:21-28 | the update step in place: the leaf is healthy exactly if the frame reports a healthy worker, its slot takes the load of a full frame or of one that carries a load, all other health and slots stay; PublishPicker exactly on a health change |
| HashRouting.RingModel.LeafDisconnected | pkg/ingress/routing/consistent.go:30-32 | the disconnect step in place: only this leaf's health falls; PublishPicker exactly if it was healthy |
| HashRouting.RingModel.MakePicker | pkg/ingress/routing/consistent.go:34-50 | the picker of a rebuild, from the cache where health has not changed |
| HashRouting.RebuiltRing | pkg/ingress/routing/boundedloads.go:72-98 | a picker's ring is over exactly the leaves of the topology that are healthy, ascending |
| HashRouting.PickConsistent | pkg/ingress/routing/consistent.go:58-73 | the home on the healthy ring, never the fallback |
| HashRouting.PickBounded | pkg/ingress/routing/boundedloads.go:134-147 | the bounded-loads decision over the loads of the moment, with bound 1.0 and chain length 3 where none is set; a healthy leaf, never the fallback |
| Chbl.NewRing | pkg/chbl/chbl.go:61-84 | the loops and sorts build the ring of the ids |
| Chbl.RingIsValid | pkg/chbl/chbl.go:61-84 | a ring is sorted, over exactly its ids, with the first position of each |
| Chbl.RingPositions | pkg/chbl/chbl.go:61-84 | a node lies on the ring once for each of the 128 hashes of its id that gives its position, for each time the id was given |
| Chbl.Subset | pkg/chbl/chbl.go:89-117 | the one-pass filter, also when it returns the ring itself |
| Chbl.SubsetIsRebuild | pkg/chbl/chbl.go:89-117 | the subset ring equals the ring built afresh from the healthy ids, node for node, for any hash |
| Chbl.Home | pkg/chbl/chbl.go:125-135 | the id of the first node at or after the position, else of the first node, and a ring member |
| Chbl.HomeExactly | pkg/chbl/chbl.go:125-135 | the node of the home: no node before it is at or after the position, and it is, or no node is and it is the first of all |
| Chbl.HomeMovesToFirstHealthy | pkg/chbl/chbl.go:125-135 | the home on the subset is the first healthy node clockwise on the full ring |
| Chbl.HomeIsStable | pkg/chbl/chbl.go:89-135 | between any two healthy sets a function keeps its home if and only if its old home is still healthy and its new home was healthy before |
| Chbl.HomeSurvivesLeaving | pkg/chbl/chbl.go:89-135 | a function whose home stays healthy keeps it when others leave |
| Chbl.Next | pkg/chbl/chbl.go:142-157 | the walk finds the next distinct node, as NextIsFirstOther writes it out |
| Chbl.NextMoves | pkg/chbl/chbl.go:142-157 | it stays on the ring and moves on exactly if there is another id |
| Chbl.NextIsFirstOther | pkg/chbl/chbl.go:142-157 | read clockwise from the id's first position the answer is the first node of another id, and every node before it is the id's own |
| Chbl.Forward | pkg/chbl/chbl.go:174-191 | the decision rule over a map of loads, with bound 1.0 and chain length 3 where none is set |
| Chbl.ForwardBy | pkg/chbl/chbl.go:195-215 | the same rule over a reader, plain or with a slot scan |
| Chbl.LeastLoaded | pkg/chbl/chbl.go:218-232 | the lexicographic minimum of load and id |
| Chbl.LeastLoadedBy | pkg/chbl/chbl.go:235-249 | the same through a reader |
| Chbl.LeastLoadedID | pkg/ingress/routing/boundedloads.go:118-132 | the same through precomputed slots |
| Chbl.DecisionIsUnique | pkg/chbl/chbl.go:174-215 | the rule fixes id and reason, so the three forms agree |
| Chbl.DecisionOnRing | pkg/chbl/chbl.go:174-215 | the decision is a ring member |
| Chbl.DecisionOnWalk | pkg/chbl/chbl.go:174-215 | along the walk of next nodes the decision is the first one below the bound within the chain, or the least loaded node if none is |
| BoundedScheduler.PickWorker | pkg/leaf/scheduler/bounded.go:35-77 | an eligible worker exactly if the ring has one; the ring's decision if eligible, else the least loaded eligible worker; with bound 1.0 and chain length 3 where none is set |
| BoundedScheduler.AnswersExactly | pkg/leaf/scheduler/bounded.go:35-93 | the chosen worker is the ring's decision if that is eligible, else the eligible one with the least load and then the lowest id; its score is its reported load |
| BoundedScheduler.LastReportCounts | pkg/leaf/scheduler/bounded.go:35-60 | a worker's last report is the one filed, and its load that of the report, or one above the bound if the report is not healthy, not schedulable or at the instance limit |
| BoundedScheduler.EligibleExactly | pkg/leaf/scheduler/bounded.go:35-93 | eligible exactly if its report has an id, is healthy and schedulable, and is below the instance limit where there is one |
| BoundedScheduler.LeastLoadedEligible | pkg/leaf/scheduler/bounded.go:79-93 | the least loaded eligible id, or none |
| ScalingWindow.AverageIsMeanOfHistory | pkg/leaf/autoscaling/policy.go:230-270 | for every history the circular buffer's average is the mean of the last period samples |
| ScalingWindow.RecordHolds | pkg/leaf/autoscaling/policy.go:230-247 | the buffer holds the newest samples, newest at the head, through growth, wrap-around and overwrites |
| ScalingPolicy.OutputBounds | pkg/leaf/autoscaling/policy.go:122-193 | every output lies between the scale-down and scale-up limits or the panic memory, and covers current demand up to the limit |
| ScalingPolicy.PanicRemembers | pkg/leaf/autoscaling/policy.go:162-187 | within an episode no output is below any over-threshold panic demand |
| ScalingPolicy.PanicLasts | pkg/leaf/autoscaling/policy.go:162-178 | an episode lasts at least a stable window after its last over-threshold demand |
| ScalingPolicy.RunAverage | pkg/leaf/autoscaling/policy.go:122-150 | the averages of a run are means over all demand recorded so far |
| ScalingPolicy.ScaleMeetsDemand | pkg/leaf/autoscaling/policy.go:52-120 | demand keeps an instance; zero exactly if idle at zero or past the timeout; min and max instances hold |
| ScalingPolicy.TargetWithinLimits | pkg/leaf/autoscaling/policy.go:277-300 | the target is within the hard limit and the annotated target |
| ScalingOutputs.RunWeights | pkg/leaf/autoscaling/policy.go:122-160 | in every run a decision weighs the means of all demand recorded so far over the two windows, six and two seconds where none is set, and the rate limits of the current scale |
| ScalingOutputs.OutputExactly | pkg/leaf/autoscaling/policy.go:122-193 | the output outside a panic is the stable demand between the limits, inside one the largest of it, the panic demand and the memory; when a panic begins and ends, written out |
| ScalingOutputs.TargetExactly | pkg/leaf/autoscaling/policy.go:277-300 | the target per instance, written out from annotation, hard limit, default and utilization |
| ScalingOutputs.UtilizationExactly | pkg/leaf/autoscaling/policy.go:302-313 | which utilizations are taken as they are and what replaces the others |
| ScalingOutputs.LimitsExactly | pkg/leaf/autoscaling/policy.go:151-160 | the limits of one decision from the current scale and the two rates, with their defaults |
| ScalingOutputs.InstancesExactly | pkg/leaf/autoscaling/policy.go:315-320 | the least number of instances whose joint target covers the demand |
| ScalingOutputs.DecideExactly | pkg/leaf/autoscaling/policy.go:52-120 | which rule decides in each case of demand, current scale and idle time |
| ScalingOutputs.DecideMoves | pkg/leaf/autoscaling/policy.go:52-120 | only the rules that average move the state, and exactly as their decision does |
| ScalingOutputs.ClampExactly | pkg/leaf/autoscaling/policy.go:332-345 | the bounds of the function change a decision only as far as they must, the upper one last |
| ScalingOutputs.SampleRule | pkg/leaf/autoscaling/policy.go:230-247 | a demand starts a new sample exactly if it is the first or comes two seconds or more after the last one began, else it replaces that one |
| ScalingPolicy.DirigentState.RecordSample | pkg/leaf/autoscaling/policy.go:230-247 | the in-place record step |
| ScalingPolicy.DirigentState.Average | pkg/leaf/autoscaling/policy.go:249-270 | the backward walk computes the window's average |
| ScalingPolicy.DirigentState.DirigentDesired | pkg/leaf/autoscaling/policy.go:122-193 | the decision and the new state |
| ConfigDistribution.VersionsIncrease | pkg/controlplaneclient/config.go:106-117 | a subscriber installs strictly increasing versions, none newer than the store |
| ConfigDistribution.PendingHasWakeup | pkg/controlplane/store/memory/memory.go:43-83 | a pending document has a token or a taker while its watch lives |
| ConfigDistribution.QuiescentIsLatest | pkg/controlplane/store/memory/memory.go:375-419 | when a live watch has nothing left to do the subscriber holds the stored document |
| ConfigDistribution.ConditionalPutIsAtomic | pkg/controlplane/store/memory/memory.go:355-373 | a successful conditional put had no successful put since the version it names was read |
| ConfigDistribution.StoredIsLatestPut | pkg/controlplane/store/memory/memory.go:355-373 | in every run the stored document carries the body of the latest successful put, under the version that put gave it |
| ConfigDistribution.HeldWasPut | pkg/controlplane/store/memory/memory.go:355-419 | in every run the document a subscriber holds is one that was put, body and version together |
| ConfigProgress.WatchCatchesUp | pkg/controlplane/store/memory/memory.go:375-419 | in every reachable state with a live watch, wakeups, takes, sends and deliveries of that watch alone can follow after which the subscriber holds the stored document |
| ConfigProgress.ReconnectCatchesUp | pkg/controlplane/store/memory/memory.go:375-419 | with an open store the subscriber can always get there by connecting anew |
| ConfigDistribution.RunInv | pkg/controlplane/store/memory/memory.go:355-425 | the distribution invariant over puts, wakeups, deliveries, reconnects and close |
| ConfigStore.ConfigWatcher.Set | pkg/controlplane/store/memory/memory.go:54-65 | an open mailbox holds the newest document and a token |
| ConfigStore.ConfigWatcher.Take | pkg/controlplane/store/memory/memory.go:67-73 | hands over the pending document |
| ConfigStore.ConfigWatcher.Close | pkg/controlplane/store/memory/memory.go:75-83 | closed, with a wakeup |
| ConfigStore.MemoryStore.PutPlatformConfig | pkg/controlplane/store/memory/memory.go:355-373 | succeeds exactly if open and the expected version is current; then the store holds the given body under the next version and every open mailbox is told |
| ConfigStore.MemoryStore.EmitConfig | pkg/controlplane/store/memory/memory.go:421-425 | every open mailbox holds the document and a token |
| ConfigStore.MemoryStore.WatchPlatformConfig | pkg/controlplane/store/memory/memory.go:375-393 | a mailbox seeded with the current document, none on a closed store |
| ConfigStore.MemoryStore.Close | pkg/controlplane/store/memory/memory.go:94-107 | every mailbox is closed and woken |
| ConfigStore.ConfigSubscriber.ApplyDocument | pkg/controlplaneclient/config.go:106-117 | installs exactly a newer document; installed versions rise |

## Left out

- gRPC and HTTP servers, proxies, dialing, logging, timing statistics and configuration loading: plumbing without state of its own.
- Sandbox runtimes, /proc readers, downloads, function runtimes: foreign calls; their outcomes are open choices of the models.
- The etcd store: its guarantees come from etcd; the memory store carries the configuration protocol here.
- Random, round-robin, least-loaded, random-jump and CH-RLU routing, and the power-of-two scheduler: easy members, or probabilistic.
- Image bookkeeping of placement (pending and known images): read only by image-aware placement, and never by the counters.
- The per-worker instance cap and the search for a free slot between single atomic steps: a commit lowers the pending counter before it raises the instance counter, and a scan can pass a slot before it is freed; both are stated with each call as one step.
- Cross-component equality of placement's instance counts and the actuator's tracked counts.
- The queue-head time and the demand wakeup of the pool, which only feed the autoscaler's timing.
- The pool's list-element pointers after Close: the ready list is a sequence, so membership in it stands for the pointer; after Close the model claims only that nothing is granted.
- The scale pump, image preparation and the retry loops of the actuator: they only choose when the modelled steps happen.
- Per-function lookup of autoscaler state: one DirigentState stands for one function.
- Fields of routing frames other than capacity in the stream runs: scalars travel with every frame and are covered by the ring models.
- NaN loads, 64-bit wrap-around, duplicate ring ids, real-time liveness, and restarts of a leaf or a worker.
- AvailableCapacity.AvailableCapacityModel.Commit: a published cell and the writer's cell are one object in the source and known by the function id here, so a reader that keeps a table from before an earlier commit is not modelled.
- HashRouting.RingModel.ReplaceLeaf: one class stands for the consistent-hashing and the bounded-loads model, which differ only in the load slots.
- Autoscaling.SandboxActuator.InstancesForStop: the source returns from the loops as soon as enough victims are found; the model's loops run on without marking more.
- Placement.PlacementState.ReserveWorker: one call is one step in this class, with its second telemetry read as a parameter; the retries of its compare-and-swap against other calls are steps of the interleaving system of `PlacementSteps`.
- HashRouting.PickBounded: the loads do not change while one pick walks the ring.
- DataPlane.SandboxPool.Snapshot: the activity time and the time of the oldest queued call are not part of the pool's state here, and the three atomic counters are read together with the rest although the source reads them after unlocking.
- AvailableCapacity.AvailableCapacityPicker.Pick: the counter does not wrap at 2^64, and picks of other functions between two picks of one function move its turn on.
- StreamRuns.DrainedIndexIsCurrent: Settled speaks of the source at one moment; the snapshot of an emit is any view, as the source reads its pools one after another.
- The admission pool inside the eviction runs: only which instances it admitted; that a start adds to the pool and then to the tracked list is one step there, and Drain's wait ends in one step.
