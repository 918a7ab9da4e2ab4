# Verification of the sensors HAL

A Dafny model of the parts of the sensors HAL whose correctness spans several functions or several threads,
with proofs about every run of them. `dafny verify dfyconfig.toml` checks the project.

The project has three main parts and two smaller ones.

**The event pipeline of the multi-HAL.** Posters, the drain thread with its blocking write outside the mutex, the framework
that reads the FMQ, `stopThreads` and `initialize` are the steps of one transition system (`EventPipeline`); every posted
event carries its fate in a log that is history only. A theorem about runs is a theorem about every interleaving. The
methods of `HalProxyQueue` are the code of each thread, proved to do exactly these steps; `HalProxyCallback` feeds them. The
shared wake-lock count with its RAII tokens, acknowledgements, timeouts and resets is a second transition system
(`SharedWakeLock`, methods in `HalProxyWakeLock`), and `HalProxySystem` runs the two together, through timeouts, stops and
restarts: the lock is held while the wake-up events that have not reached the framework are more than what the code has
written off, which in ordinary operation is only what failed writes gave back in excess. A thread inside a critical section
that another thread can observe from outside it is a state of the system (`Inside`, `Busy`); what happens wholly under a
mutex is one step. `mThreadsRun`, which is read without a lock, is a free boolean of each step of the wake-lock system.

**Direct channels.** `SubHalSensor` is the sensor's own table, its derived minimum rate and its power state; `DirectReport` is
the HAL's table of channels and its agreement with every sensor's table over every sequence of calls; `SensorsSubHal` holds
the methods that update both. `Decimation` is the arithmetic of the decimating writer, `LockfreeBuffer` the ring in shared
memory together with the parser that reads it.

**The sensor fusion.** `LinearSystems` and `GaussJordan` are the in-place matrix inversion for every size; `Quaternion` the
conversions between quaternions and rotation matrices; `Forms33`, `Covariance`, `KalmanUpdate`, `NoiseGuard` and
`KalmanPredict` the 2x2 block covariance; `FusionSteps`, `Transition` and `Fusion` the orientation, the blocks of the transition
matrix and the class that runs it all; `Divergence` a run that ends in a reset; `Attitude`, `BiasTransition` and `Sensitivity`
that orientation, gravity, covariance and measurement are propagated by the same rotation, and that a correction goes towards
the measurement. Arithmetic is over exact reals.
`sqrt`, `sin`, `cos` and `exp` are arbitrary functions with their defining properties: `sqrt` of a nonnegative number is
nonnegative and squares to it, `sin` and `cos` have squares that add up to one, and `exp` is positive. `Attitude` also uses the
double-angle formulas.

**Smaller state machines.** `SubHalRouting` (handles and the sensor list), `SingleHalWakeLock` (the wake lock of the single
HAL) and `RateArbitration` (sampling rates shared by sensor types, and the rate the SMI330 is programmed to).

Names in the sources are kept where Dafny's conventions allow: a class has the fields of the class it models, and its `Abs()`
is the value the specification functions work on.

## What the code does not do

Each of these looks like a promise of the code or its comments and is not one. The model follows the code; the named lemma
gives an input on which the promise fails, or the exact condition under which it holds.

- A blocking write that fails on the rest of a batch whose first part was already written gives back the wake-up count of
  the whole batch: `EventPipelineTheorems.PartlyWrittenBatchOverReleases`, with the exact excess in `FailedWriteReleaseExact`.
- `initialize` calls `resetSharedWakelock` after stopping the threads, so the count is not reset, and the tokens alive at that
  time never give back what they took: `SharedWakeLock.InitializeKeepsCountAndStrandsTokens`.
- A token created in the same nanosecond as a reset that follows it is not recognised as older:
  `SharedWakeLock.CoarseClockStealsACount`, with the exact condition in `HeldAcrossResetExactly`.
- An acknowledgement carries no date. One that arrives after a reset for an event posted before it takes the count of a newer
  event: `SharedWakeLock.LateAcknowledgementStealsACount`, `GivingBackBalancedExactly`.
- A post that finds no room in the pending queue drops events it has counted as wake-up events, and nothing gives their counts
  back: `HalProxySystem.OverflowKeepsAwake` is a run after which all that was written is acknowledged and the lock is still
  held, until a timeout. `HalProxySystem.HeldForTheDropped` says how much stays counted.
- A post with a locked token, no wake-up events and a count of zero would acquire the kernel lock without counting anything.
  `SharedWakeLock.StepKeepsLockExactly` shows that no other step can put lock and count out of step; `postEvents` asserts against it.
- `scaleCovariance` says it computes A P transpose(A). It does so, for the matrices it is called with, exactly
  when one combination of the off-diagonal covariances, the twist, vanishes: `Covariance.ScaledCovarianceExactly`. As a
  consequence S contains not the measurement noise but that noise plus an error, and the update keeps a proper covariance
  proper exactly under the conditions of `KalmanUpdate.UpdatedPositiveExactly` and `NoiseGuard.NoiseProperExactly`. A run
  of two samples a second apart, with a gyroscope variance of 0.033, after which `checkState` finds a negative variance and resets
  the fusion is `Divergence.RunDiverges`: without any rounding, the error of `scaleCovariance` is one reason for the divergence
  that the comment in `checkState` asks about. `Divergence.RunMeetsSingular` ends the same run with a singular S, and
  `Divergence.CorrectionResets` is the run in the class's own terms, from the first accelerometer sample on. Only the class's
  public interface can be given these numbers: the composite sensors in the repository set gyroscope variances of at most
  2.25e-4 (`sensors/sensors/SMI240.cpp:21`) and sampling periods of at most 20 ms (`sensors/sensors/SMI240.cpp:69`). Whether a
  run with those numbers ends in a reset is not stated here.
- `isPositiveSemidefinite` looks only at the diagonal and at symmetry: `KalmanPredict.ResetExactly`.
- Disabling a sensor powers the hardware down under a direct channel: `SubHalSensor.PoweredWhenWantedExactly`.
- Enabling a second type of a shared device does not reprogram its rate: `RateArbitration.SecondTypeIsStarved`, with the exact
  condition in `ProgrammedAfterActivateExactly`.
- The SMI330 is programmed to 0 Hz for requests below 2.5 ms or from 1.28 s on: `RateArbitration.OdrPositiveExactly`.
- `matrixToQuat` loses the signs of a half turn about a mixed axis: `Quaternion.HalfTurnIsLost`, with the exact conditions in
  `QuatRoundTripExactly` and `MatrixRoundTripExactly`.
- Sub-HAL indices from 128 on do not survive the sign of the handle: `SubHalRouting.RoutesBackExactly`.

## Model

| member | source | states |
|---|---|---|
| EventPipelineTheorems.EveryEventAccountedFor | sensors/multihal/2.X/HalProxy.cpp:531-639 | in every interleaving each event posted since the latest initialize is, with multiplicity, exactly one of written, pending or dropped; what was written and what is pending keep posting order; the FMQ holds the tail of what was written |
| EventPipelineTheorems.LosslessRunIsFifo | sensors/multihal/2.X/HalProxy.cpp:531-639 | with no overflow and no failed blocking write, posted equals written followed by pending without the part of the claimed batch already in the FMQ |
| EventPipelineTheorems.OneWriterAtATime | sensors/multihal/2.X/HalProxy.cpp:536-564 | the FMQ never has two writers although the blocking write runs unlocked: while it runs the claimed batch is at the head of the queue, and a poster's write always fits |
| EventPipelineTheorems.BusyQueueOnlyGrows | sensors/multihal/2.X/HalProxy.cpp:542-563 | between taking a batch and finishing it, any steps of other threads only append to the queue, so the reference taken before unlocking still denotes the same batch |
| EventPipelineTheorems.QueueSizeExact | sensors/multihal/2.X/HalProxy.cpp:555-563 | after every run mSizePendingWriteEventsQueue is the number of pending events, at most 100000, no pending batch is empty, and the drain thread's subtraction never underflows |
| EventPipelineTheorems.DrainFinishTakesOneRound | sensors/multihal/2.X/HalProxy.cpp:555-563 | each finished blocking write lowers the sum over the batches of ceil(size / quantum) by exactly one |
| EventPipelineTheorems.FailedWriteReleaseExact | sensors/multihal/2.X/HalProxy.cpp:543-554 | a failed write gives back too much iff the batch fits the FMQ and wake-up events of its post left it earlier, and then too much by exactly their number |
| EventPipelineTheorems.BatchKeepsItsPostsCount | sensors/multihal/2.X/HalProxy.cpp:630-634 | over all runs the wake-up count of a pending batch is that of its own events plus that of the events of its post that left before them |
| EventPipelineTheorems.CountIsHowMany | sensors/multihal/2.X/HalProxy.cpp:690-699 | the wake-up count is the number of positions that hold a wake-up event |
| EventPipelineTheorems.PartlyWrittenBatchOverReleases | sensors/multihal/2.X/HalProxy.cpp:630-634 | a run in which one wake-up event is written, one dropped and two given back |
| EventPipelineTheorems.StopInitializeKeepsInv | sensors/multihal/2.X/HalProxy.cpp:494-501 | stopping and initializing keep the queue, writer and history invariants |
| EventPipelineTheorems.DrainRoundKeepsInv | sensors/multihal/2.X/HalProxy.cpp:536-563 | a whole drain round, with the framework reading during the blocking write, keeps the invariant whether the write succeeds or fails, and takes one round off the backlog |
| EventPipelineTheorems.DrainRoundEffect | sensors/multihal/2.X/HalProxy.cpp:536-563 | a whole round takes the first min(batch, quantum) pending events off the queue, and puts exactly those behind what the framework left in the FMQ if the write succeeds |
| EventPipelineTheorems.PostWritesWhatFits | sensors/multihal/2.X/HalProxy.cpp:618-638 | with nothing pending a post writes min(events, free space) events, so something is left pending only if the FMQ is full; with something pending it writes none; what is left is queued with the count of the whole post if there is room and lost otherwise |
| EventPipelineTheorems.PostWritesWhatItChose | sensors/multihal/2.X/HalProxy.cpp:618-629 | whatever runs between the choice of how much to write and the write: that much is written |
| EventPipeline.PostLeaveKeepsQueue | sensors/multihal/2.X/HalProxy.cpp:618-638 | a post keeps the size account, the bound, nonempty batches, and the claimed batch at the head |
| EventPipeline.PostLeaveKeepsHistory | sensors/multihal/2.X/HalProxy.cpp:618-638 | a post gives each of its events one fate and writes none past an event still pending |
| EventPipeline.DrainWriteKeepsInv | sensors/multihal/2.X/HalProxy.cpp:543-554 | the blocking write, successful or not, keeps the pipeline invariant |
| EventPipeline.DrainFinishKeepsInv | sensors/multihal/2.X/HalProxy.cpp:555-563 | erasing the written prefix or popping the batch keeps the pipeline invariant |
| EventPipeline.StepKeepsInv | sensors/multihal/2.X/HalProxy.cpp:494-639 | every step of every thread keeps the pipeline invariant |
| EventPipeline.RunKeepsInv | sensors/multihal/2.X/HalProxy.cpp:494-639 | the pipeline invariant holds after every run |
| HalProxyQueue.EventQueues.constructor | sensors/multihal/2.X/include/HalProxy.h:198-207 | a new proxy is in the transition system's initial state: nothing pending, no FMQ, the running flag up |
| HalProxyQueue.EventQueues.CountNumWakeUpEvents | sensors/multihal/2.X/HalProxy.cpp:690-699 | the count of wake-up events among the first n |
| HalProxyQueue.EventQueues.WriteFmq | sensors/multihal/2.X/HalProxy.cpp:618-629 | the FMQ takes all of the events or none, and all exactly when they fit |
| HalProxyQueue.EventQueues.PostEventsToMessageQueue | sensors/multihal/2.X/HalProxy.cpp:611-639 | at any time the drain thread does not hold the mutex, also during its blocking write: with nothing pending the FMQ gets the first min(events, free space) events and something is left pending only if it is then full; with something pending it gets none; the rest goes to the end of the queue with the count of the whole post if there is room; the post is one step of the transition system and keeps the invariant |
| HalProxyQueue.EventQueues.HandlePendingWrite | sensors/multihal/2.X/HalProxy.cpp:536-563 | one pass of the drain loop is one drain round of the transition system: it succeeds iff the chunk fits after the framework reads, takes the chunk off the queue in either case, puts it into the FMQ only then, and takes one round off the backlog |
| HalProxyQueue.EventQueues.ClaimBatch | sensors/multihal/2.X/HalProxy.cpp:536-542 | what the drain thread reads before it unlocks is the claim step of the transition system |
| HalProxyQueue.EventQueues.BlockingWrite | sensors/multihal/2.X/HalProxy.cpp:542-554 | the unlocked part, with any posts made since the claim: writes the chunk if it fits after the framework's reads, otherwise drops it and gives back what the code gives back, and keeps the invariant |
| HalProxyQueue.EventQueues.GiveBack | sensors/multihal/2.X/HalProxy.cpp:547-553 | the references dropped on a failure: none, those of the chunk, or those of the whole post |
| HalProxyQueue.EventQueues.FinishWrite | sensors/multihal/2.X/HalProxy.cpp:555-563 | the part after locking again: exactly the written or lost events leave the front of the queue, as a prefix of an oversized batch or as the whole batch, and the size account goes down by their number |
| HalProxyQueue.EventQueues.HandlePendingWrites | sensors/multihal/2.X/HalProxy.cpp:531-566 | without new posts the loop empties the queue in exactly the sum over the batches of ceil(size / quantum) passes, whatever the framework reads and whichever writes fail |
| HalProxyQueue.EventQueues.StopThreads | sensors/multihal/2.X/HalProxy.cpp:494-501 | in any state of the drain thread: the flag goes down, the FMQ is emptied, the pending queue and the invariant stay |
| HalProxyQueue.EventQueues.InitializeCommon | sensors/multihal/2.X/HalProxy.cpp:192-217 | a new session starts with an empty queue and an empty FMQ of the new size, in a valid state |
| HalProxyCallback.PostEvents | sensors/multihal/2.X/HalProxyCallback.cpp:41-57 | nothing happens for no events or while threads are stopped; otherwise every event is posted with its payload under a handle whose index is this sub-HAL and whose rest is the sub-HAL's own handle, and with the wake-up count that the queues go by |
| HalProxyCallback.CountsAgree | sensors/multihal/2.X/HalProxyCallback.cpp:64-80 | the number processEvents reports is the number of wake-up events the queues will count again |
| SharedWakeLock.LockHeldIffCounted | sensors/multihal/2.X/HalProxy.cpp:570-668 | after every run of posts, tokens, acknowledgements, failures, timeouts, stops and resets in which no post takes a count of zero, the kernel lock is held iff the count is positive, and acquire and release strictly alternate |
| SharedWakeLock.StepKeepsLockExactly | sensors/multihal/2.X/HalProxy.cpp:641-668 | a step keeps lock and count together iff it is not an increment by zero of a zero count |
| SharedWakeLock.TimeoutTakenExactly | sensors/multihal/2.X/HalProxy.cpp:593-603 | after every run a timeout is taken iff something is counted and more than the limit has passed since the latest increment of the run, or since the start if there was none |
| SharedWakeLock.StartTimeIsLatestIncrement | sensors/multihal/2.X/HalProxy.cpp:641-654 | only tokens locked and posts counted while threads run move the time that timeouts are measured from |
| SharedWakeLock.CountIsConserved | sensors/multihal/2.X/HalProxy.cpp:593-668 | over every run with threads running, an advancing clock and no more acknowledged than posted: count = locked tokens taken since the reset + wake-ups posted - acknowledged - failed, and a token older than the reset changes nothing when destroyed |
| SharedWakeLock.OrdinaryStepKeepsBalance | sensors/multihal/2.X/HalProxy.cpp:593-668 | each such step keeps that balance |
| SharedWakeLock.TimelyStepKeepsCover | sensors/multihal/2.X/HalProxy.cpp:593-668 | whatever value of mThreadsRun each call sees, whatever tokens are assigned and however much is given back, the count never falls below live tokens + posted - acknowledged - failed since the reset |
| SharedWakeLock.AssignBalancedExactly | sensors/multihal/2.X/ScopedWakelock.cpp:32-41 | a move assignment keeps the balance iff its target does not hold a count of its own, since the code gives none back for it |
| SharedWakeLock.AssignMovesOneCount | sensors/multihal/2.X/ScopedWakelock.cpp:30-41 | a moved token counts once, and self-assignment loses its count |
| SharedWakeLock.DestroyGivesBackOne | sensors/multihal/2.X/ScopedWakelock.cpp:50-54 | destroying a token keeps the balance; one that holds no count since the reset changes nothing |
| SharedWakeLock.LiveResetReleases | sensors/multihal/2.X/HalProxy.cpp:605-609 | a reset while threads run leaves the count at zero and the lock released |
| SharedWakeLock.InitializeKeepsCountAndStrandsTokens | sensors/multihal/2.X/HalProxy.cpp:656-663 | a reset with threads stopped changes neither count nor lock, and the tokens of before never give back their count |
| SharedWakeLock.CoarseClockStealsACount | sensors/multihal/2.X/HalProxy.cpp:661-663 | with a clock that does not advance, a token of before a reset takes the count of one created after it |
| SharedWakeLock.HeldAcrossResetExactly | sensors/multihal/2.X/HalProxy.cpp:605-663 | a locked token held across a reset at time r, through any steps up to the next reset: destroying it takes no count iff it was created strictly before r |
| SharedWakeLock.GivingBackBalancedExactly | sensors/multihal/2.X/HalProxy.cpp:656-668 | an acknowledgement or a failed write keeps the balance iff it gives back no more than is outstanding since the reset |
| SharedWakeLock.LateAcknowledgementStealsACount | sensors/multihal/2.X/HalProxy.cpp:656-668 | from every state without counts: an event posted before a reset and acknowledged after it lets the lock go while a newer event is outstanding |
| HalProxyWakeLock.WakeLockCounter.constructor | sensors/multihal/2.X/include/HalProxy.h:236-240 | a new counter is the transition system's initial one |
| HalProxyWakeLock.WakeLockCounter.IncrementRefCountAndMaybeAcquireWakelock | sensors/multihal/2.X/HalProxy.cpp:641-654 | fails with nothing changed when threads are stopped; otherwise adds to the count, restarts the timeout and acquires the lock iff the count was zero; keeps lock and count together unless it adds zero to zero |
| HalProxyWakeLock.WakeLockCounter.DecrementRefCountAndMaybeReleaseWakelock | sensors/multihal/2.X/HalProxy.cpp:656-668 | takes from the count, never below zero, and releases the lock iff that makes it zero; changes nothing when threads are stopped or for a reference older than the reset |
| HalProxyWakeLock.WakeLockCounter.ResetSharedWakelock | sensors/multihal/2.X/HalProxy.cpp:605-609 | drops the whole count if threads run and records the reset time in any case |
| HalProxyWakeLock.WakeLockCounter.SharedWakelockDidTimeout | sensors/multihal/2.X/HalProxy.cpp:593-603 | a timeout iff the time since the last increment is more than the limit, otherwise the nonnegative time that is left until then |
| HalProxyWakeLock.WakeLockCounter.BeginPass | sensors/multihal/2.X/HalProxy.cpp:573-582 | the first half of a pass resets iff more than the limit has passed, which leaves the count at zero and the lock released; otherwise nothing changes and the read may take the time left |
| HalProxyWakeLock.WakeLockCounter.EndPass | sensors/multihal/2.X/HalProxy.cpp:583-587 | the second half, whatever count and flag have become meanwhile, gives back what was read and keeps lock and count together |
| HalProxyWakeLock.ScopedWakelock.constructor | sensors/multihal/2.X/ScopedWakelock.cpp:43-48 | a token is locked iff asked for while threads run, and then has taken one count and the time of it |
| HalProxyWakeLock.ScopedWakelock.Move | sensors/multihal/2.X/ScopedWakelock.cpp:30 | the new token takes over, the old one is emptied, the counter is untouched |
| HalProxyWakeLock.ScopedWakelock.AssignFrom | sensors/multihal/2.X/ScopedWakelock.cpp:32-41 | the same for an existing token, and assigning a token to itself empties it |
| HalProxyWakeLock.ScopedWakelock.Destroy | sensors/multihal/2.X/ScopedWakelock.cpp:50-54 | a locked token gives back one count dated by its creation, an unlocked one nothing |
| HalProxyWakeLock.TokenLife | sensors/multihal/2.X/ScopedWakelock.cpp:30-54 | create, move, destroy both: the count is what it was, with one acquire and one release if it was zero and none otherwise |
| HalProxySystem.AwakeWhileWakeUpsAreUndelivered | sensors/multihal/2.X/HalProxy.cpp:494-668 | in every run, through timeouts, stops, restarts and failed writes: the lock is held while live tokens and wake-up events being posted, queued or unread are more than failed writes gave back in excess, posts did not count and the latest reset wrote off; in ordinary operation only the excess is subtracted |
| HalProxySystem.HeldForTheDropped | sensors/multihal/2.X/HalProxy.cpp:531-668 | once everything that was written is read and acknowledged and no token lives, after ordinary operation without excess, the count is exactly the number of dropped wake-up events that no failed write gave back, and the lock is held iff there are any |
| HalProxySystem.AsleepWhenEverythingIsAcknowledged | sensors/multihal/2.X/HalProxy.cpp:531-668 | so if nothing was dropped, the count is zero and the lock released |
| HalProxySystem.OverflowKeepsAwake | sensors/multihal/2.X/HalProxy.cpp:615-638 | for every FMQ size, a run in which a post overflows the pending queue, the written part is read and acknowledged, and the count of the dropped part keeps the lock held |
| HalProxySystem.WriteFailsKeepsInv | sensors/multihal/2.X/HalProxy.cpp:543-554 | any failed write keeps the accounts, what it gives back in excess being added to the excess |
| HalProxySystem.PostKeepsInv | sensors/multihal/2.X/HalProxy.cpp:615-617 | counting a post's wake-up events before writing any keeps queue and count in agreement; a post whose token is unlocked or that sees the threads stopped is put down as uncounted |
| HalProxySystem.WakeStepKeepsInv | sensors/multihal/2.X/HalProxy.cpp:573-609 | acknowledgements, tokens, timeouts and resets keep the accounts; a reset writes off what is outstanding |
| HalProxySystem.RestartKeepsInv | sensors/multihal/2.X/HalProxy.cpp:192-253 | initialize starts the accounts of queue and count over, whatever the stopped reset leaves in the count |
| HalProxySystem.RunKeepsInv | sensors/multihal/2.X/HalProxy.cpp:494-668 | queue, count, lock and the accounts between them agree after every run, across timeouts, stops and restarts |
| SubHalRouting.RoutesBackExactly | sensors/multihal/2.X/HalProxy.cpp:56-67 | a tagged handle gives back its sub-HAL index iff that is below 128, and then also the original handle |
| SubHalRouting.AcceptedSafely | sensors/multihal/2.X/HalProxy.cpp:682-688 | any int32 handle, negative or not, is rejected or is exactly the tagged form of what the chosen sub-HAL receives |
| SubHalRouting.NoCollision | sensors/multihal/2.X/HalProxy.cpp:56-58 | listed handles are equal only for the same sub-HAL and the same original handle |
| SubHalRouting.ListingIsFaithful | sensors/multihal/2.X/HalProxy.cpp:454-472 | the list holds exactly the sensors declared with a clear index, under their tagged handles, with direct-channel flags only from the first sub-HAL that declares a direct-capable one |
| SubHalRouting.ListedHandlesRoute | sensors/multihal/2.X/HalProxy.cpp:454-472 | with at most 128 sub-HALs every listed handle is accepted and leads to the sub-HAL that declared it, with its original handle |
| SubHalRouting.OneDirectSubHal | sensors/multihal/2.X/HalProxy.cpp:670-680 | after listing, only the chosen sub-HAL's sensors carry direct-channel flags |
| SubHalRouting.WakeUpAsDeclared | sensors/multihal/2.X/HalProxyCallback.cpp:73-77 | whatever handle an event carries: it counts as wake-up iff the last sensor that the sub-HAL named by the tagged handle declared under its lower bits has the wake-up flag; for a clear handle that sub-HAL is the event's own |
| SubHalRouting.ProcessEvents | sensors/multihal/2.X/HalProxyCallback.cpp:64-80 | every event in order; its handle, and the dynamic handle of a dynamic-sensor event only, get the index of the sub-HAL and keep the sub-HAL's own bits, everything else is kept; with the number of wake-up events among them |
| SubHalRouting.TaggedRoutesBack | sensors/multihal/2.X/HalProxyCallback.cpp:68-72 | the handle of a tagged event, and the dynamic handle of an event that has one, lead back to the sub-HAL and to the handle it gave, for every index below 128 |
| SubHalRouting.TaggedKeepsRest | sensors/multihal/2.X/HalProxyCallback.cpp:68-72 | for every handle and index: the lower bits of the handles, the payload and the kind of the event are kept, and so is the dynamic handle of an event that has none |
| SubHalRouting.HalProxySensors.SetDirectChannelFlags | sensors/multihal/2.X/HalProxy.cpp:670-680 | the first direct-capable sub-HAL is chosen; sensors of any other lose their direct flags |
| SubHalRouting.HalProxySensors.InitializeSensorList | sensors/multihal/2.X/HalProxy.cpp:454-472 | the loops over sub-HALs and sensors build the listing the lemmas are about |
| SubHalRouting.HalProxySensors.ListSubHal | sensors/multihal/2.X/HalProxy.cpp:456-470 | one sub-HAL's callback adds its sensors in order and skips those whose handles are not clear |
| GaussJordan.Invert | sensors/core/utils/mat.h:290-337 | returns a matrix iff the source has only the zero vector in its kernel, and it is then the two-sided inverse |
| GaussJordan.FindPivot | sensors/core/utils/mat.h:300-306 | although each candidate is compared with the diagonal entry and not with the best so far, the row found has a nonzero entry unless the rest of the column is zero; it is the last one larger than the diagonal |
| GaussJordan.BringPivot | sensors/core/utils/mat.h:300-319 | swapping rows in both matrices keeps their solutions and the finished columns, and a zero pivot proves the source singular |
| GaussJordan.NormalizeRow | sensors/core/utils/mat.h:321-325 | dividing the pivot row in both matrices makes the pivot one and keeps the solutions |
| GaussJordan.ClearRow | sensors/core/utils/mat.h:326-334 | subtracting a multiple of the pivot row in both matrices clears one entry and keeps the solutions |
| GaussJordan.ClearColumn | sensors/core/utils/mat.h:321-334 | after the inner loops the first i + 1 columns are those of the identity |
| LinearSystems.TrackedProduct | sensors/core/utils/mat.h:292-337 | throughout, inverse times src equals tmp |
| LinearSystems.ReducedGivesInverse | sensors/core/utils/mat.h:292-337 | when tmp has become the identity, inverse is the inverse from both sides and src is nonsingular |
| LinearSystems.NoPivotMeansSingular | sensors/core/utils/mat.h:300-306 | a column with no pivot left gives a nonzero vector that src maps to zero |
| Inversion33.Invert33 | sensors/core/CompositeSensors.cpp:204 | the inversion of S succeeds iff S is nonsingular and gives the two-sided inverse |
| Inversion33.InverseIsUnique | sensors/core/CompositeSensors.cpp:204 | a matrix has at most one inverse, so the gain is determined |
| Quaternion.QuatToMatrixIsRotation | sensors/core/utils/quat.h:29-55 | the matrix of a unit quaternion is orthogonal from both sides and has determinant one |
| Quaternion.QuatRoundTripExactly | sensors/core/utils/quat.h:29-80 | matrixToQuat(quatToMatrix(q)) is q for w > 0 and -q for w < 0; for w = 0 it is one of the two iff the imaginary components do not differ in sign |
| Quaternion.MatrixRoundTripExactly | sensors/core/utils/quat.h:29-80 | quatToMatrix(matrixToQuat(R)) is R, for a rotation R, iff its trace is above -1 or three off-diagonal entries are nonnegative |
| Quaternion.HalfTurnIsLost | sensors/core/utils/quat.h:29-80 | the half turn (0.6, -0.8, 0, 0) comes back from neither round trip |
| Quaternion.HorizontalHalfTurn | sensors/core/utils/quat.h:57-80 | of a half turn about a horizontal axis the third column survives |
| Quaternion.MatrixToQuatIsUnit | sensors/core/utils/quat.h:57-80 | matrixToQuat of a rotation is a unit quaternion with w >= 0 |
| Quaternion.RadicandsNonnegative | sensors/core/utils/quat.h:68-77 | for a rotation none of the four numbers under the roots is negative, so no clamping happens |
| Quaternion.RadicandProducts | sensors/core/utils/quat.h:68-77 | the products of the radicands are the squares of the entry sums and differences whose signs the code copies |
| Covariance.ScaleCovariance | sensors/core/CompositeSensors.cpp:70-87 | the four nested loops compute the sums that the lemmas on ScaledCovariance are about, for any A and P |
| Covariance.ScaledCovarianceExactly | sensors/core/CompositeSensors.cpp:70-87 | for the cross matrix of b and symmetric P the result is A P transpose(A) iff b is zero or b.x P21 - b.y P20 + b.z P10 is zero |
| Covariance.ScaledCross | sensors/core/CompositeSensors.cpp:70-87 | the error is that number times the off-diagonal matrix of b, so the diagonal is always right |
| Covariance.OuterSumDiffers | sensors/core/CompositeSensors.cpp:75-80 | for any rows u and w the accumulated sum is u P w minus the same combination taken of u x w |
| Covariance.CrossMatrixIsCrossProduct | sensors/core/CompositeSensors.cpp:56-68 | crossMatrix(p, diag) applied to v is diag v + p x v |
| KalmanUpdate.UpdatedSymmetric | sensors/core/CompositeSensors.cpp:204-221 | the block-by-block update keeps P symmetric, although it never computes P01 on its own |
| KalmanUpdate.UpdatedForm | sensors/core/CompositeSensors.cpp:204-221 | the variance in any of the six-dimensional directions falls by the form of the inverse of S on what the measurement sees of that direction |
| KalmanUpdate.UpdatedPositive | sensors/core/CompositeSensors.cpp:189-233 | whatever S has beyond L P transpose(L), if that is positive semidefinite the update keeps P so |
| KalmanUpdate.UpdatedPositiveExactly | sensors/core/CompositeSensors.cpp:189-233 | from a proper covariance and with any invertible S = L P transpose(L) + N, the update leaves a positive semidefinite covariance iff N - N inverse(S) N is one; and when S is, iff N is |
| KalmanUpdate.UpdatedFormBound | sensors/core/CompositeSensors.cpp:204-221 | under the same condition the updated variance is at least the old variance of the direction less its estimate |
| KalmanUpdate.MeasurementNonsingular | sensors/core/CompositeSensors.cpp:202-204 | if N is positive definite S can be inverted |
| KalmanUpdate.MeasurementSingularExactly | sensors/core/CompositeSensors.cpp:202-204 | if N is positive semidefinite S is singular iff some direction has no noise and is not seen |
| KalmanUpdate.InnovationSplits | sensors/core/CompositeSensors.cpp:203 | the code's S is L P transpose(L) + N with N = sigma^2 I plus the error of scaleCovariance |
| NoiseGuard.NoiseProperExactly | sensors/core/CompositeSensors.cpp:202-203 | that N is positive semidefinite iff sigma^2 outweighs the vector w = twist * b: no |w_i| exceeds it, and sigma^6 - sigma^2 w.w + 2 w.x w.y w.z >= 0; all known before the call |
| NoiseGuard.NoiseDefiniteExactly | sensors/core/CompositeSensors.cpp:202-203 | and positive definite iff the same holds strictly |
| Divergence.RunDiverges | sensors/core/CompositeSensors.cpp:89-97 | a run from the start (predict, horizontal update, vertical update) for every noise variance in (13/3800, 0.00377]: the covariance is proper before the last step, the update leaves a negative variance and checkState resets everything |
| Divergence.RunExists | sensors/core/CompositeSensors.cpp:204 | S can be inverted in that last step, so there is such a run |
| Divergence.RunMeetsSingular | sensors/core/CompositeSensors.cpp:203-204 | at noise variance 13/3800 the same run meets a singular S with a proper covariance |
| Divergence.RunReachesOrientation | sensors/core/CompositeSensors.cpp:308-345 | a first sample along one axis and a turn of 225 degrees about it leave exactly the orientation of the run |
| Divergence.CorrectionResets | sensors/core/CompositeSensors.cpp:308-337 | in the class's terms: after that first sample and turn, a second sample whose noise is a little above critical has its correction throw the covariance away, for every transition matrix of the predict between |
| KalmanUpdate.InnovationExactly | sensors/core/CompositeSensors.cpp:203 | S is the covariance of the measurement iff scaleCovariance is right, with the same condition |
| KalmanUpdate.InverseOfSymmetric | sensors/core/CompositeSensors.cpp:204 | the inverse of a symmetric S is symmetric |
| KalmanPredict.IsPositiveSemidefinite | sensors/core/utils/mat.h:269-280 | true iff the diagonal is nonnegative and opposite entries differ by at most the tolerance |
| KalmanPredict.CheckState | sensors/core/CompositeSensors.cpp:89-97 | resets the whole covariance iff one of the diagonal blocks does not have that |
| KalmanPredict.ResetExactly | sensors/core/CompositeSensors.cpp:89-97 | a symmetric covariance is kept iff its six variances are nonnegative, and stays symmetric either way |
| KalmanPredict.PositiveIsKept | sensors/core/CompositeSensors.cpp:89-97 | a positive semidefinite covariance is never reset |
| KalmanPredict.ProcessNoiseExactly | sensors/core/CompositeSensors.cpp:277-292 | the process noise is positive semidefinite iff the sampling time is not negative, also with 0.33333 for a third |
| KalmanPredict.ProcessNoiseComposes | sensors/core/CompositeSensors.cpp:277-292 | without rotation, the noise of a time a carried on over a time b, plus that of b, is the noise of a + b in the bias and cross blocks exactly, and in the orientation block but for the 0.33333 that stands for a third |
| KalmanPredict.ProcessNoiseOfVariance | sensors/core/CompositeSensors.cpp:277-292 | a larger gyroscope variance adds the difference times the sampling time to the orientation block and nothing else |
| KalmanPredict.PredictedIsCovariance | sensors/core/CompositeSensors.cpp:184 | for any Phi, its two unassigned blocks included, predict keeps symmetry, keeps positive semidefiniteness, and then never resets |
| Blocks.CongruenceKeepsPositivity | sensors/core/CompositeSensors.cpp:184 | Phi P transpose(Phi) is positive semidefinite with P |
| Blocks.CongruenceKeepsSymmetry | sensors/core/CompositeSensors.cpp:184 | Phi P transpose(Phi) is symmetric with P |
| Blocks.TransposeMulB | sensors/core/utils/mat.h:252-259 | transposing a block product reverses it, the blocks being transposed too |
| Blocks.MulAssocB | sensors/core/utils/mat.h:39-52 | block products associate |
| Blocks.ApplyMul | sensors/core/utils/mat.h:39-52 | a block product acts as one factor after the other |
| FusionSteps.FrameIsRotation | sensors/core/CompositeSensors.cpp:299-305 | east, north and up of any nonzero accelerometer sample form a rotation |
| FusionSteps.PerpendicularIsNonzero | sensors/core/CompositeSensors.cpp:235-250 | getOrthogonal never normalises zero, and its result is perpendicular to its argument |
| FusionSteps.PerpendicularIsLong | sensors/core/CompositeSensors.cpp:235-250 | getOrthogonal normalises a vector with at least two thirds of the squared length |
| FusionSteps.InitialOrientationPointsUp | sensors/core/CompositeSensors.cpp:299-306 | for every nonzero sample, pointing straight down included, the initial orientation reports the measured direction as up |
| FusionSteps.InitialGravity | sensors/core/CompositeSensors.cpp:299-352 | the gravity of the initial orientation is standard gravity along the sample, so a sample of that length minus it is zero |
| FusionSteps.HalfTurnFramePointsDown | sensors/core/CompositeSensors.cpp:235-305 | the only initial frame that is a half turn is that of a sample along the vertical axis |
| FusionSteps.RateIsNonzero | sensors/core/CompositeSensors.cpp:126-128 | after the substitution for slow rotation, predict never divides by zero |
| FusionSteps.RateExactly | sensors/core/CompositeSensors.cpp:124-128 | the measured rate is integrated iff it is at least the limit long; the substitute has three equal entries of the limit's size, positive iff the measured x is |
| FusionSteps.TimesOLength | sensors/core/CompositeSensors.cpp:165-180 | O scales the length of every quaternion by the length of (k2, psi) |
| FusionSteps.TurnedIsUnit | sensors/core/CompositeSensors.cpp:121-182 | predict maps unit quaternions to unit quaternions with w >= 0 |
| FusionSteps.StepLength | sensors/core/CompositeSensors.cpp:226 | for every u, q + getF(q) u has (1 + u.u) times the squared length of q: the step only ever lengthens q |
| FusionSteps.StepNeverZero | sensors/core/CompositeSensors.cpp:226-227 | normalize_quat after the step never divides by zero |
| FusionSteps.CorrectedIsUnit | sensors/core/CompositeSensors.cpp:226-227 | update leaves a unit quaternion with w >= 0, whatever the gain |
| FusionSteps.NormalizeQuatIsUnit | sensors/core/utils/quat.h:82-89 | normalize_quat of any nonzero quaternion is unit with w >= 0 |
| FusionSteps.NoCorrection | sensors/core/CompositeSensors.cpp:223-227 | a measurement that agrees with the orientation leaves it unchanged |
| FusionSteps.OrientationStaysUnit | sensors/core/CompositeSensors.cpp:121-306 | over every run of starts, corrections and turns from a nonzero first sample, the orientation is a unit quaternion with w >= 0 |
| FusionSteps.GravityLength | sensors/core/CompositeSensors.cpp:347-352 | the reported gravity is exactly as long as standard gravity |
| Fusion.CompositeSensorCore.constructor | sensors/core/CompositeSensors.h:56-64 | a new fusion: zero time and gyroscope variance; whatever the source leaves uninitialised (transition blocks, sampling period, mJustStarted) is arbitrary |
| Fusion.CompositeSensorCore.Activate | sensors/core/CompositeSensors.cpp:33-38 | enabling and disabling both make the next sample start the fusion again |
| Fusion.CompositeSensorCore.InitFusion | sensors/core/CompositeSensors.cpp:253-297 | leaves a valid state with zero covariance and bias; the process noise is proper iff the sampling period is not negative |
| Fusion.CompositeSensorCore.InitRodrParams | sensors/core/CompositeSensors.cpp:299-306 | starts a valid fusion from every nonzero sample and from no other |
| Fusion.CompositeSensorCore.Predict | sensors/core/CompositeSensors.cpp:121-187 | turns the orientation, sets only the two transition blocks it sets, keeps a valid state, and on a proper covariance leaves a proper one without a reset |
| Fusion.CompositeSensorCore.UpdateCovariance | sensors/core/CompositeSensors.cpp:197-221 | succeeds iff the code's S is nonsingular; gains and covariance are those of the block formulas with its inverse, whatever the order of the four assignments |
| Fusion.CompositeSensorCore.Update | sensors/core/CompositeSensors.cpp:189-233 | succeeds iff S is nonsingular and keeps a valid state; an agreeing measurement changes neither orientation nor bias; from a proper covariance it succeeds if sigma^2 strictly outweighs the twist, and leaves a proper one without a reset if it outweighs it; from the zero covariance nothing changes |
| Fusion.CompositeSensorCore.CorrectErrors | sensors/core/CompositeSensors.cpp:325-337 | the two corrections in their order, the second working on the result of the first, with the accelerometer's noise growing away from standard gravity |
| Fusion.CompositeSensorCore.CalculateGravity | sensors/core/CompositeSensors.cpp:308-356 | in each of the three cases (first sample, free fall, otherwise) the resulting orientation, bias and covariance; the gravity returned is standard gravity along the third column of the attitude, which is Phi00 times the sample's own direction for the first sample, and Phi00 times that of the orientation before, or as corrected, for later ones |
| Fusion.ProperUpdateSucceeds | sensors/core/CompositeSensors.cpp:203-204 | from a proper covariance S is nonsingular if sigma^2 strictly outweighs the twist; if it just outweighs it, S is singular iff the measurement is blind in some direction |
| Fusion.NoiseOfSample | sensors/core/CompositeSensors.cpp:327-336 | the noise of a sample of length l, times l, is 0.015 times the exponential of the root of the distance of l from standard gravity |
| Fusion.ProperUpdateStaysProper | sensors/core/CompositeSensors.cpp:203-232 | from a proper covariance the update leaves one that is kept iff N - N inverse(S) N is positive semidefinite; if sigma^2 outweighs the twist; and with S positive semidefinite only if it does |
| Fusion.UpdatedZero | sensors/core/CompositeSensors.cpp:206-221 | from the zero covariance the gains are zero |
| Fusion.PredictedFromZero | sensors/core/CompositeSensors.cpp:184 | predict from the zero covariance leaves the process noise, whatever the transition |
| Fusion.CovarianceStaysSymmetric | sensors/core/CompositeSensors.cpp:184-221 | the covariance is symmetric after every sequence of predict and update with nonsingular S |
| Fusion.CovarianceStaysProper | sensors/core/CompositeSensors.cpp:184-232 | if sigma^2 outweighs the twist at every update of a run, the covariance stays positive semidefinite and is never reset |
| Attitude.PredictTurnsAttitude | sensors/core/CompositeSensors.cpp:159-182 | the rotation matrix after predict is Phi00 times the one before: orientation and covariance are propagated by the same rotation |
| Attitude.GravityTurns | sensors/core/CompositeSensors.cpp:345-352 | the gravity reported after predict is Phi00 times the gravity before |
| BiasTransition.Phi10Exactly | sensors/core/CompositeSensors.cpp:151-178 | Phi10 is the one matrix that, turned about the rate, is Phi00 - I, and that is -dT along the rate: the two properties of minus the integral of Phi00 over the sampling time |
| BiasTransition.FactorsMatch | sensors/core/CompositeSensors.cpp:161-178 | the last factor of Phi10 times the squared rate is dT less the sine factor of Phi00 |
| Sensitivity.CorrectionMovesExpected | sensors/core/CompositeSensors.cpp:191-227 | a correction dq moves the expected measurement by L dq and two terms of second order in dq, exactly, after division by 1 + dq.dq / 4: L is the sensitivity the comment at H names |
| Sensitivity.CorrectionLeaves | sensors/core/CompositeSensors.cpp:204-223 | to first order a correction takes away all of the measurement error e but N inverse(S) e, exactly |
| Sensitivity.CorrectionGoesTowards | sensors/core/CompositeSensors.cpp:204-223 | along inverse(S) e the correction from a proper covariance goes towards the measurement, and not past it if sigma^2 outweighs the twist |
| Sensitivity.SampleCorrection | sensors/core/CompositeSensors.cpp:325-337 | the whole correction of a sample: the error is the sample's direction less the vertical as expected, and the orientation moves by what the two lemmas say of it |
| Attitude.StepMatrixIsPhi00 | sensors/core/CompositeSensors.cpp:159-177 | the half-angle quaternion that O is built from has Phi00 as its matrix |
| Attitude.MatrixOfProduct | sensors/core/utils/quat.h:29-55 | quatToMatrix turns quaternion products into matrix products in reverse order |
| Attitude.MatrixIsSandwich | sensors/core/utils/quat.h:29-55 | quatToMatrix(q) v is conjugate(q) v q |
| SubHalSensor.StepKeepsInv | sensors/multihal/common/Sensor.cpp:164-320 | every call keeps: derived rate and flag match the table, enabled implies powered, powered implies wanted by someone, and the last period passed down is at most both requests |
| SubHalSensor.RunKeepsInv | sensors/multihal/common/Sensor.cpp:164-320 | all of that holds after every sequence of calls |
| SubHalSensor.PeriodPassedDown | sensors/multihal/common/Sensor.cpp:164-320 | whatever the call, the hardware is told no period but the one wanted then (the request or the shortest enabled channel), and is told it whenever that becomes shorter |
| SubHalSensor.RequestsTakeEffect | sensors/multihal/common/Sensor.cpp:164-222 | batch stores the request brought into the sensor's range; activate stores the flag and switches the hardware with it iff it changes |
| SubHalSensor.AddTakesEffect | sensors/multihal/common/Sensor.cpp:247-320 | a channel faster than request and channels so far sets rate and period at once, and the first channel of a disabled sensor powers the hardware |
| SubHalSensor.PoweredWhenWantedExactly | sensors/multihal/common/Sensor.cpp:211-222 | a call keeps the hardware on exactly when someone wants it, unless it disables an enabled sensor that a direct channel uses |
| SubHalSensor.RecoversExactly | sensors/multihal/common/Sensor.cpp:211-320 | after such a power-down power matches again iff the call enables the sensor, or stops or removes a channel while no other is enabled |
| SubHalSensor.DisablingStarvesTheChannel | sensors/multihal/common/Sensor.cpp:211-222 | three calls that leave a direct channel without hardware |
| SubHalSensor.MinRateUnique | sensors/multihal/common/Sensor.cpp:290-295 | the rate the loop is specified by is determined by the table |
| SubHalSensor.MinOneMore | sensors/multihal/common/Sensor.cpp:290-295 | a pass of the loop extends the minimum by one channel |
| SubHalSensor.Sensor.constructor | sensors/multihal/common/Sensor.cpp:132-147 | a new sensor is off, runs at its minimum delay and satisfies the invariant |
| SubHalSensor.Sensor.SetPeriod | sensors/multihal/common/Sensor.cpp:164-180 | batch stores the request brought into the sensor's range, and passes it down iff it is shorter than every direct channel's |
| SubHalSensor.Sensor.SetEnabled | sensors/multihal/common/Sensor.cpp:211-222 | activate stores the flag and switches the hardware exactly when it changes |
| SubHalSensor.Sensor.Add | sensors/multihal/common/Sensor.cpp:247-262 | adds or replaces one channel's entry, or stops it for period zero, and brings rate, power and period up to date |
| SubHalSensor.Sensor.Stop | sensors/multihal/common/Sensor.cpp:264-275 | disables one channel's entry if there is one and brings rate, power and period up to date |
| SubHalSensor.Sensor.Remove | sensors/multihal/common/Sensor.cpp:277-287 | removes one channel's entry and brings rate, power and period up to date |
| SubHalSensor.Sensor.UpdateDirectChannel | sensors/multihal/common/Sensor.cpp:289-320 | sets rate and flag to what the table says, programs a faster rate, and switches the hardware only while the sensor is disabled |
| SubHalSensor.Sensor.MinOverChannels | sensors/multihal/common/Sensor.cpp:290-295 | the least period of the enabled channels, INT64_MAX if there are none |
| SubHalSensor.Sensor.AnyChannelEnabled | sensors/multihal/common/Sensor.cpp:304-310 | whether some channel is enabled |
| DirectReport.TablesAlwaysAgree | sensors/multihal/common/SensorsSubHal.cpp:198-370 | after every sequence of register, unregister, configure, initialize, batch and activate: sensor s marks channel c with period r iff c is registered with r > 0 for s; s has no entry for other channels; its direct rate and flag are the minimum over and the existence of such channels |
| DirectReport.CallKeepsInv | sensors/multihal/common/SensorsSubHal.cpp:198-370 | every call keeps the two tables mirrored |
| DirectReport.UnregisterKeepsInv | sensors/multihal/common/SensorsSubHal.cpp:236-252 | so does unregistering, registered or not |
| DirectReport.InitializeKeepsInv | sensors/multihal/common/SensorsSubHal.cpp:355-370 | so does initialize, which reaches every sensor of every channel before it forgets the channels |
| DirectReport.StopAllKeepsInv | sensors/multihal/common/SensorsSubHal.cpp:264-274 | so does stopping all sensors of a channel |
| DirectReport.ConfigKeepsInv | sensors/multihal/common/SensorsSubHal.cpp:254-322 | so does configuring, whether accepted or refused |
| DirectReport.ConfigTakesEffect | sensors/multihal/common/SensorsSubHal.cpp:264-317 | an accepted configuration of one sensor gives the channel the period 0, 20, 5 or 1.25 ms of the level in both tables, and every other rate is kept |
| DirectReport.ConfigRefusedExactly | sensors/multihal/common/SensorsSubHal.cpp:254-317 | a configuration is refused iff channel or sensor is unknown, the memory type is not supported, or the level is above the sensor's or unknown; a refusal changes nothing |
| DirectReport.StopAllTakesEffect | sensors/multihal/common/SensorsSubHal.cpp:264-274 | stopping all leaves the channel without a rate for any sensor and no sensor with it enabled; other channels keep their rates |
| DirectReport.UnregisterTakesEffect | sensors/multihal/common/SensorsSubHal.cpp:236-252 | an unregistered channel is gone from both tables, and nothing else is |
| DirectReport.RegisterTakesEffect | sensors/multihal/common/SensorsSubHal.cpp:213-219 | a registered channel is new and has no rate for any sensor |
| DirectReport.RemoveChannelsEffect | sensors/multihal/common/SensorsSubHal.cpp:355-370 | the nested loops remove exactly the entries of the channels they reach, from exactly the sensors listed there |
| DirectReport.StopAllEffect | sensors/multihal/common/SensorsSubHal.cpp:264-274 | the loop disables exactly the listed sensors, sets their rates to zero and leaves other channels alone |
| SensorsSubHal.SensorsSubHal.RegisterDirectChannel | sensors/multihal/common/SensorsSubHal.cpp:198-234 | a fresh handle on success, which is then the one channel more and has no rate; the error and handle -1 otherwise; the tables mirrored in both cases |
| SensorsSubHal.SensorsSubHal.UnregisterDirectChannel | sensors/multihal/common/SensorsSubHal.cpp:236-252 | exactly this channel leaves both tables; always reports success |
| SensorsSubHal.SensorsSubHal.ConfigDirectReport | sensors/multihal/common/SensorsSubHal.cpp:254-322 | accepted iff channel, sensor, memory type and level are; then the sensor has the level's period on this channel and marks it unless it is STOP, or no sensor has one after a stop of all; every other rate is kept, and a refused call changes nothing |
| SensorsSubHal.SensorsSubHal.Initialize | sensors/multihal/common/SensorsSubHal.cpp:355-370 | afterwards no channel is left in either table |
| SensorsSubHal.SensorsSubHal.StopAll | sensors/multihal/common/SensorsSubHal.cpp:264-274 | the loop over a channel's sensors stops each that exists |
| SensorsSubHal.SensorsSubHal.SetRate | sensors/multihal/common/SensorsSubHal.cpp:290-317 | both tables get the period |
| SensorsSubHal.SensorsSubHal.OfferToAll | sensors/multihal/common/SensorsSubHal.cpp:380-397 | one event reaches every channel, each deciding by its own count |
| SensorsSubHal.SensorsSubHal.WriteToDirectBuffer | sensors/multihal/common/SensorsSubHal.cpp:377-400 | a batch that finds the mutex taken is dropped; otherwise each channel is given what it would be given if it were the only one, and the tables stay mirrored |
| Decimation.WritesOfOneSensor | sensors/multihal/common/SensorsSubHal.cpp:381-395 | among any mixture of sensors, n samples of one cause exactly floor(n / ceil(rate / period)) writes |
| Decimation.CountAfter | sensors/multihal/common/SensorsSubHal.cpp:381-395 | the counter is n mod ceil(rate / period) after n samples |
| Decimation.WrittenExactly | sensors/multihal/common/SensorsSubHal.cpp:381-395 | the samples written are exactly those whose number is a multiple of ceil(rate / period) |
| Decimation.SensorsAreIndependent | sensors/multihal/common/SensorsSubHal.cpp:377-400 | what a channel gets from one sensor depends on that sensor's samples alone |
| Decimation.SpacingBounds | sensors/multihal/common/SensorsSubHal.cpp:381-395 | consecutive writes are at least rate and less than rate + period apart, hence less than 2 rate when period <= rate |
| Decimation.SpacingOfEveryChannel | sensors/multihal/common/Sensor.cpp:290-338 | after every sequence of calls on a new sub-HAL, the period a sensor polls its direct channels at is positive and at most each channel's, so every channel's writes are at least its period and less than twice its period apart |
| Decimation.DueExactly | sensors/multihal/common/SensorsSubHal.cpp:381-395 | the multiplication in the code compares as the rounded-up quotient would |
| Decimation.TablesUntouched | sensors/multihal/common/SensorsSubHal.cpp:377-400 | writing changes no rate and no list of sensors |
| LockfreeBuffer.Buffer.constructor | sensors/core/DirectChannel.cpp:27-30 | a new buffer is the image of no events |
| LockfreeBuffer.Buffer.Write | sensors/core/DirectChannel.cpp:34-57 | after n writes slot i holds the newest event k with k mod m = i, stamped k + 1, or zeros; the position is n mod m; a buffer without slots drops everything |
| LockfreeBuffer.Buffer.WriteOne | sensors/core/DirectChannel.cpp:39-56 | one event, at its slot, with its stamp |
| LockfreeBuffer.WriteStep | sensors/core/DirectChannel.cpp:39-56 | the image after one more event differs from the image before in the slot n mod m only |
| LockfreeBuffer.NewestIs | sensors/core/DirectChannel.cpp:34-57 | the event a slot is said to hold belongs there and is among the last m |
| LockfreeBuffer.NewestIsNewest | sensors/core/DirectChannel.cpp:34-57 | and no later event belongs there |
| LockfreeBuffer.ParseEvents | sensors/aidl/vts/SensorsAidlTestSharedMemory.h:61-113 | the events of the slots from the offset on as long as their counters grow; none at all if a malformed one is met before they stop growing |
| LockfreeBuffer.ParsedUnique | sensors/aidl/vts/SensorsAidlTestSharedMemory.h:61-113 | that determines the result: the run of newer slots, or nothing if the newer slot that follows it is malformed |
| LockfreeBuffer.ReadsOn | sensors/aidl/vts/SensorsAidlTestSharedMemory.h:61-113 | a reader at most one buffer behind gets exactly the next events up to the end of the buffer or of what was written |
| LockfreeBuffer.ReadsCurrentLap | sensors/aidl/vts/SensorsAidlTestSharedMemory.h:61-113 | read from the start, the buffer gives exactly the events of the current lap, in order |
| LockfreeBuffer.TwoPollsCatchUp | sensors/aidl/vts/SensorsAidlTestSharedMemory.h:61-113 | two polls, the second wrapping to the start if needed, give a reader at most one buffer behind exactly what it has missed |
| SingleHalWakeLock.HeldIffOutstanding | sensors/2.X/Sensors.h:492-525 | when the kernel grants every request, after every sequence of writes and polls the lock is held iff events are outstanding |
| SingleHalWakeLock.HeldWhenOutstandingExactly | sensors/2.X/Sensors.h:507-524 | one call keeps that iff the request it makes is granted |
| SingleHalWakeLock.OutstandingIsMaxSuffix | sensors/2.X/Sensors.h:494-499 | without auto-release or overflow the count is the maximum of the suffix sums of written - handled, the empty one included |
| SingleHalWakeLock.LatePollReleases | sensors/2.X/Sensors.h:513-523 | a poll past the auto-release time leaves the lock released and nothing outstanding |
| SingleHalWakeLock.ReleasedExactly | sensors/2.X/Sensors.h:501-523 | a held lock is let go by a call iff the kernel is willing and either nothing is outstanding any more or more than the limit has passed since the latest write of the whole run |
| SingleHalWakeLock.ReleaseTimeIs | sensors/2.X/Sensors.h:501-505 | only a call that writes events moves the release time, to the limit after its time |
| SingleHalWakeLock.ToInt32Wraps | sensors/2.X/Sensors.h:494 | the sum that updateWakeLock stores is in the int32 range and right up to multiples of 2^32 |
| SingleHalWakeLock.Sensors.UpdateWakeLock | sensors/2.X/Sensors.h:492-525 | a write puts the release time off; the count is what is left of old, written and handled, or zero past the release time; the lock is taken for a positive count and given back for zero iff the kernel grants it; the method is one step of that system, including the wrap of the int32 sum |
| SingleHalWakeLock.Sensors.ReadWakeLockFmq | sensors/2.X/Sensors.h:474-486 | the polling loop is a run of steps that write nothing |
| RateArbitration.SensorCore.ActivateByType | sensors/core/SensorCore.cpp:34-45 | power is on iff some type is enabled; the period is passed down again, and is then the right one, exactly when power changes |
| RateArbitration.SensorCore.BatchByType | sensors/core/SensorCore.cpp:51-54 | afterwards the device runs at the least of its longest period and the enabled requests |
| RateArbitration.SensorCore.UpdateSamplingRate | sensors/core/SensorCore.cpp:56-66 | the loop passes down that least period |
| RateArbitration.WantedUnique | sensors/core/SensorCore.cpp:56-66 | there is only one such period |
| RateArbitration.ProgrammedAfterActivateExactly | sensors/core/SensorCore.cpp:34-45 | from a device at the right period, told before the call: enabling leaves it so iff the device was off or the type's period is unset or not below the current one; disabling, iff no other type is requested, or the device runs at its longest period, or another requested type asks for the current one |
| RateArbitration.SecondTypeIsStarved | sensors/core/SensorCore.cpp:40-44 | a second type asking for 5 ms is enabled and the device stays at 100 ms |
| RateArbitration.SelectRate | sensors/sensors/SMI330.cpp:51-57 | the halving loop ends; for a request of 2.5 ms or more at the largest 2.5 ms * 2^k, k <= 9, not above it |
| RateArbitration.ChosenUnique | sensors/sensors/SMI330.cpp:51-57 | that rate is unique |
| RateArbitration.OdrPositiveExactly | sensors/sensors/SMI330.cpp:51-58 | the number written to the chip is positive iff the request is at least 2.5 ms and below 1.28 s |
| RateArbitration.Smi330Imu.UpdateSamplingRate | sensors/sensors/SMI330.cpp:39-59 | serves the smaller request of the enabled halves, and writes nothing if neither is enabled |
| RateArbitration.Smi330Imu.SetPowerMode | sensors/sensors/SMI330.cpp:27-32 | afterwards the chip serves the request of the halves now enabled, and the half's power mode is 3 or 0 |
| RateArbitration.Smi330Imu.SetSamplingRate | sensors/sensors/SMI330.cpp:34-37 | afterwards the chip serves the request with the new period |

## Left out

- Float rounding: the fusion and the inversion are over exact reals. Filter accuracy and convergence are not stated, nor are the values of sqrt, sin, cos and exp.
- A zero pivot, a zero accelerometer sample at the start, and a sample of length zero later give NaN in the code; here `Invert` returns None and the methods of `Fusion` report failure.
- GaussJordan.Invert: takes and returns the matrix as rows; the working copies `tmp` and `inverse` are arrays updated in place as in the source.
- Fusion.CompositeSensorCore.Activate: the calls it makes to the sensors the fusion depends on are not part of this model, nor are the gravity subtraction and rotation vector built on top of `calculateGravity`.
- HalProxyQueue.EventQueues.InitializeCommon: clears the pending queue without the mutex in the code. The model lets it run only while no post is inside its critical section and the drain thread has ended; a post racing with it is not captured.
- HalProxySystem.AwakeWhileWakeUpsAreUndelivered: the framework acknowledges only wake-up events that have left the FMQ since the latest initialize; one that acknowledges more, or events of an earlier session, is not covered, and `SharedWakeLock.TimelyStepKeepsCover` says what then still holds. A locked token comes only with wake-up events, as `postEvents` asserts.
- HalProxyQueue.EventQueues.PostEventsToMessageQueue: the increment of the wake-lock count under the same mutex is not part of the method; it is the first half of `HalProxySystem`'s step Post, which does both at once.
- HalProxyCallback.PostEvents: the wake-lock token that a post carries, and the assertion that it is locked exactly for wake-up events, are not part of the method; `HalProxySystem` has the token and covers unlocked ones too.
- HalProxyQueue.EventQueues.StopThreads: joining the threads and the write that wakes the wake-lock thread are not part of the method.
- HalProxyQueue.EventQueues.HandlePendingWrites: runs the rounds one after another with no posts and no stop in between; the waiting on the condition variable and its wake-up races during stop are not modelled; `freed` says how much the framework reads during each blocking write.
- The 32-bit and 64-bit widths of times, counters and sizes, except where they matter: the handle bits, the int32 sum of `updateWakeLock` and the bound on the ring's counter are modelled as they are.
- LockfreeBuffer.Buffer.Write: an event's body and its stamp are one step, so torn reads and the memory fences are not captured, and the counter stays below INT32_MAX, past which its increment is undefined. The destructor, which clears the memory, is left out.
- LockfreeBuffer.ParseEvents: offsets are in whole slots.
- SensorsSubHal.SensorsSubHal.WriteToDirectBuffer: writing into the shared memory of a channel is a list of writes here, and `LockfreeBuffer` says what each does.
- SensorsSubHal.SensorsSubHal.RegisterDirectChannel: the checks of the memory type and size and the mapping of the memory enter as an outcome.
- The constants of the Android interfaces (flag bits, rate levels, event size) are not in the repository and are written as their published values; the wake-lock timeouts are parameters.
- HalProxy's dynamic sensors, operation modes, data injection, `debug` and the counter of the most events ever pending.
- The timing of `Sensor::run` and its mNext...Ns fields, flush and the report latency.
- The AIDL and single-HAL copies of the sensor and direct-channel code, the field-by-field conversions, and the callback and queue wrappers: near copies or forwarding.
- Loading of sub-HALs, XML configuration, sysfs, sleeping and logging: input and output.
