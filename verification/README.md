# Models of the concurrency and time primitives under `internal/`

This project models the small Go primitives that the rest of the repository is
built on, and proves what they promise:

| module | models |
|---|---|
| `RateLimit` | the token bucket against a specification made of time windows only |
| `Shuffle` | the in-place Fisher-Yates loop as a bijection |
| `Retry` | capped, jittered backoff and the retry loop |
| `Limiter` | the semaphore's mutex and condition-variable protocol |
| `ErrGroup`, `ErrGroupWait`, `ErrGroupProgress` | groups of goroutines that share one semaphore, when a nil result of Wait is stable, and that all calls come to an end |
| `CircuitBreaker` | the three-state breaker under concurrent calls |
| `KV` | the sharded store with lazy expiry against one plain map |
| `SyncBus`, `AsyncBus`, `AsyncBusClose`, `AsyncBusLeave` | the two event buses, whether Close returns, and what a leaving subscriber can lose |
| `AsyncWriter` | the bounded queue of background jobs |
| `VersionedDir` | the crash-safe versioned cache directory and its atomic sidecar writes |
| `Vfs` | the in-memory file tree kept in a flat map |
| `Scheduler`, `SchedulerLoop`, `SchedulerRuns` | the job scheduler: one caller, the timed loop, any number of callers |
| `SchedulerProgress`, `SchedulerOverlap`, `SchedulerSpacing` | that RunDue calls and invocations come to an end, when invocations of one name can overlap, when an entry is launched too early |
| `Common` | options, behaviours of a transition system, sums over maps, a swap |

`dafny verify dfyconfig.toml` checks all of it.

## How it is modelled

Code that several goroutines share is a transition system. A step is one section
under a mutex, one atomic access, one channel or wait-group operation, or one
system call; `Event` lists the steps, `Enabled` says when one can happen and
`Step` what it does. `Common.Behavior` is a finite run of such a system and
`Common.Invariance` carries an invariant from the steps to all runs. Theorems
about runs quantify over every run and every state in it. Fields marked as
history in a state exist only to state properties; no step's outcome depends on
them.

Code that one goroutine runs over fields or arrays is a class or a method with
the source's own loops. Its contract says which function of the old state the
new state is, or states the promised property outright. `Limiter.Semaphore`,
`CircuitBreaker.Breaker`, `SyncBus.Sync`, `AsyncBus.Async`, `ErrGroup.Group` and
`AsyncWriter.AsyncWriter` are the locked sections and channel operations as
methods, each proved equal to the step of its system;
`VersionedDir.Directory` produces a run of its system and logs every crash point.
`ErrGroup` and `SchedulerRuns` move permits only by steps of `Limiter`, so that
its guarantees carry over.

Instants and durations are integer nanoseconds, and `None` is Go's zero time.
Token counts, delays before truncation, multipliers and jitter are exact reals.
The clock, the random source, the context, the job functions, the fates of system
calls and the choice of the next step are parameters or chosen arbitrarily.

## Where code and documentation disagree

The models follow the code. Each of these is a theorem or an explicit behaviour.

- Breaker (`internal/circuitbreaker/circuitbreaker.go:112-115`): callers are said
  to be refused until the probe finishes. A call that was still running when the
  breaker tripped also ends the half-open period when its result is recorded
  (`StaleSuccessClosesDuringProbe`). The promise holds for exactly the probes
  admitted while no other operation is under way (`ProbeIsAloneIffIdleBefore`).
- Retry (`internal/retry/retry.go:59`): the maximum delay is not applied to the
  first delay. The capped power is the delay after every attempt exactly when the
  base delay respects the maximum (`BackoffClosedForm`).
- Async bus (`internal/eventbus/eventbus.go:252-254`): new sends are said to be
  blocked once a subscriber has stopped. A send can still win while the queue has
  room. An event sent after the worker has drained stays in the queue for good,
  even though no Publish overlapped Close (`UnsubscribeRaceLosesEvent`). A
  subscriber that leaves can lose an event exactly when a Publish still under way
  has it on its list (`LeaverCanLoseIffListed`). Whoever is registered when a quiet
  Close begins loses nothing (`QuietCloseDrainsRegistered`).
- Async bus (`internal/eventbus/eventbus.go:230-231`): Close is said to signal all
  subscriber goroutines and to wait for them to exit. A Subscribe that has passed
  its closed check can register after Close has signalled. If its worker starts
  before Close returns, Close never does (`LateSubscriberHangsClose`); otherwise the
  worker runs on after Close (`LateSubscriberOutlivesClose`). While nobody
  unsubscribes, a Close that has marked the bus is bound to return exactly when no
  Subscribe is past that check (`CloseIsSafeIffNobodySubscribes`). Later states are
  decided by `CloseIsSafeIffSealed` and `CloseReturnsUnlessForgotten`, and
  `SealedCloseReturns` bounds the steps.
- Sync bus (`internal/eventbus/eventbus.go:73-74`): handlers are said to run under
  the read lock. They run after it has been released, and the lock is also
  released between the two readings (`PublishDelivers`). A handler is called
  although it is no longer registered exactly when its id is unsubscribed between
  the second reading and the call (`CalledHandlerHasLeftIffUnsubscribed`,
  `LeaverIsStillCalled`).
- Error group (`internal/errgroup/errgroup.go:166-168`): the outcome of Wait is
  said to be stable after the first call. An error is; nil need not be, because the
  first Wait cancels the context. A later Go is then refused (`NilWaitIsNotStable`,
  `GoSpoilsSuccess`), and so is a Go that slept in Acquire all the time and finds no
  permit when it is woken (`WaitingGoSpoilsNil`). Once the calls made have come to
  their end, the result is still nil exactly when neither happened, no function of
  the group failed, and no error was on its way at the first Wait
  (`NilIsStableIffUnspoilt`). While nobody calls Go or TryGo on the group again, nil
  can be lost exactly if some call of it is inside Go or some function of it has not
  ended well (`NilCanBeLostIffWorkIsLeft`).
- Scheduler (`internal/scheduler/scheduler.go:11-13`): the non-overlap guard is per
  entry, so that two invocations of one name can overlap (`SameNameCanOverlap`).
  Scheduling a name makes that possible exactly when an earlier entry of the name is
  running or is still on the list of a RunDue call under way
  (`OverlapIffEarlierEntryLives`).
- Scheduler (`internal/scheduler/scheduler.go:54-58`): between collecting an entry
  and claiming it, another RunDue call can launch it. A job for one launch can then
  be launched twice (`OneShotIsLaunchedTwice`). An entry whose due time has moved
  past the instants of all RunDue calls that list it can be launched early, before it
  is collected again, exactly when there is such a call (`EarlyLaunchIffListed`).
- Scheduler (`internal/scheduler/scheduler.go:380-382`): WaitInflight can return
  between a claim and the `wg.Add` that follows it (`WaitCanMissAClaim`).
- In-memory files (`internal/vfs/vfs.go:187-188`): Remove refuses directories that
  have children, except "." (`Mem.Remove`, `NonEmptyIsRefusedIffNotDot`,
  `DotIsRemovedWithChild`), and ReadDir of "/" always fails. The type comment
  (`internal/vfs/vfs.go:64-66`) says that WriteFile creates directories; it does not.
- Store (`internal/kv/kv.go:114`): under a concurrent Set a Get can miss a key that
  was live all the time (`ReplacedBindingCanMiss`). It does exactly when the binding
  it read has expired by its check (`LiveKeyIsMissedIffItsReadExpires`), so never
  while nobody writes the key (`UndisturbedGetIsRight`).

## Model

| member | source | states |
|---|---|---|
| RateLimit.SlackMeansFits | internal/ratelimit/ratelimit.go:87-89 | comparing one number decides the window specification: n is at most the tightest slack iff n fits the burst and every window opened at an earlier call |
| RateLimit.SlackAdvance | internal/ratelimit/ratelimit.go:139-150 | letting time pass widens all windows together, which is the refill capped at the burst |
| RateLimit.SlackCharge | internal/ratelimit/ratelimit.go:87-89 | a grant takes its tokens out of every window and opens one that counts them |
| RateLimit.NoWindowOverGrants | internal/ratelimit/ratelimit.go:80-92 | any stretch of calls inside any time interval was granted at most burst + rate * length |
| RateLimit.RequestedWaitCovers | internal/ratelimit/ratelimit.go:113-119 | the wait is the whole number of nanoseconds in which what is missing flows in, rounded down, or the millisecond floor when that leaves nothing |
| RateLimit.SleepClosesTheGap | internal/ratelimit/ratelimit.go:105-127 | after one sleep less than a nanosecond's refill is missing, and nothing if that little was missing before |
| RateLimit.Bucket.constructor | internal/ratelimit/ratelimit.go:57-74 | a new bucket is full and satisfies the window specification |
| RateLimit.Bucket.RefillLocked | internal/ratelimit/ratelimit.go:139-150 | the fill level becomes the tightest slack at the new instant; a clock that steps back changes nothing |
| RateLimit.Bucket.AllowN | internal/ratelimit/ratelimit.go:80-92 | grants iff the request fits every window; so it neither over-grants nor refuses needlessly |
| RateLimit.Bucket.Poll | internal/ratelimit/ratelimit.go:105-115 | one locked turn of WaitN: taken iff the level allows it, otherwise what is missing |
| RateLimit.Bucket.WaitN | internal/ratelimit/ratelimit.go:98-128 | a sole consumer sleeps at most twice, for the time in which the missing tokens flow in and then for a millisecond; takes exactly n when enough are there; fails for n above the burst, and as soon as the context ends during a sleep, taking nothing |
| Shuffle.ShuffleIsPermutation | internal/random/random.go:160-168 | whatever the random source answers, the result has the same items |
| Shuffle.EveryPermutationArises | internal/random/random.go:160-168 | every permutation is the outcome of some answers |
| Shuffle.OutcomeDeterminesChoices | internal/random/random.go:160-168 | for distinct items the answers can be read off the outcome |
| Shuffle.ExactlyOneChoiceVectorPerPermutation | internal/random/random.go:160-168 | for distinct items answers and permutations correspond one to one |
| Shuffle.SwapIsOneChoice | internal/random/random.go:163-166 | one turn of the loop leaves the final outcome as it was, with one answer fewer to use |
| Shuffle.Copy | internal/random/random.go:161-162 | the result is a fresh array with the same items |
| Shuffle.Shuffle | internal/random/random.go:160-168 | the loop computes the outcome on which the bijection is proved, and leaves its input alone |
| Retry.GrowIsCappedPower | internal/retry/retry.go:159-167 | from a start within the cap the loop with its early exit computes min(base * factor^steps, cap) |
| Retry.UnjitteredIsClosedForm | internal/retry/retry.go:159-167 | the delay after attempt k is min(base * factor^(k-1), max) when the base respects the maximum |
| Retry.BackoffClosedForm | internal/retry/retry.go:80-99 | that closed form holds for all attempts iff the effective base delay is at most the effective maximum |
| Retry.BackoffIsKnown | internal/retry/retry.go:159-167 | for every policy, from its fields and their defaults: the base, then the maximum at once if one factor reaches it, otherwise the capped power |
| Retry.BackoffNeverShrinks | internal/retry/retry.go:159-167 | with a multiplier of at least one delays never shrink and stay within the maximum |
| Retry.GrowBounded | internal/retry/retry.go:159-167 | no unjittered delay exceeds the larger of base and maximum, for any policy |
| Retry.JitterRange | internal/retry/retry.go:168-175 | jitter j keeps the delay within max(0, d(1-j)) and d(1+j), and moves it by the drawn share of d*j |
| Retry.DelayBounded | internal/retry/retry.go:159-177 | every delay lies between zero and the policy's ceiling |
| Retry.GrowLoop | internal/retry/retry.go:160-167 | the growth loop computes the function that the closed form is about |
| Retry.ComputeDelay | internal/retry/retry.go:159-177 | growth, jitter, clamp at zero and truncation give the delay that the bounds are about; without jitter it is the truncated backoff of the policy's fields |
| Retry.Do | internal/retry/retry.go:117-157 | another attempt follows exactly a retryable failure before the limit, unless the context or the sleeper ends it; the result is success iff the last operation succeeded, exhausted iff the limit's attempt failed, rejected iff its error may not be retried, else the error of the context or sleeper; calls, sleeps and their total are bounded |
| Retry.SleepWithinBudget | internal/retry/retry.go:125-151 | the sleeps between the attempts add up to at most (maxAttempts-1) * ceiling |
| Limiter.StepKeepsInv | internal/limiter/limiter.go:80-154 | every locked section and every Broadcast keeps the wakeup and conservation invariants |
| Limiter.NoWakeupIsLost | internal/limiter/limiter.go:102-154 | in every state a sleeping waiter does not fit or an unlocked releaser still owes its Broadcast; permits in flight are those acquired and not released, within the capacity |
| Limiter.BroadcastWakesAll | internal/limiter/limiter.go:142-154 | a Broadcast leaves nobody asleep and moves no permit |
| Limiter.NobodySleepsOnAnIdleSemaphore | internal/limiter/limiter.go:105-111 | with all permits back and no Broadcast owed nobody is asleep |
| Limiter.Semaphore.constructor | internal/limiter/limiter.go:67-74 | a new semaphore is an initial state of the system |
| Limiter.Semaphore.LoopTurn | internal/limiter/limiter.go:105-117 | one turn of the wait loop is the system's turn: take, give up or sleep |
| Limiter.Semaphore.Enter | internal/limiter/limiter.go:80-117 | AcquireN up to its first wait, with its early exits, is the system's step |
| Limiter.Semaphore.Recheck | internal/limiter/limiter.go:105-117 | AcquireN with the mutex back is the system's step |
| Limiter.Semaphore.TryAcquireN | internal/limiter/limiter.go:124-136 | takes all permits, iff they fit or n is not positive, or none, and tells which |
| Limiter.Semaphore.ReleaseLocked | internal/limiter/limiter.go:142-152 | gives permits back and owes a Broadcast; panics exactly when more is released than is out |
| ErrGroup.SumMoves | internal/errgroup/errgroup.go:108-155 | a step moves at most one Go call or goroutine, so any tally of them changes by that one |
| ErrGroup.StepKeepsPermits | internal/errgroup/errgroup.go:119-147 | every step keeps permits in flight equal to permits held by Go calls and goroutines |
| ErrGroup.StepKeepsWaitGroups | internal/errgroup/errgroup.go:108-155 | every step keeps each wait group's count equal to its members |
| ErrGroup.StepKeepsErrors | internal/errgroup/errgroup.go:157-164 | every step keeps each group's error the first one recorded |
| ErrGroup.SharedPermitsAreConserved | internal/errgroup/errgroup.go:108-155 | for any number of groups on one semaphore: permits in flight are those held by spawners and unreleased goroutines, within capacity; no waiter is forgotten |
| ErrGroup.IdleGroupsHoldNothing | internal/errgroup/errgroup.go:166-177 | with all wait groups empty and no Go in progress every permit is back |
| ErrGroup.NobodyIsStranded | internal/errgroup/errgroup.go:108-155 | every Go call and goroutine can go on unless it sleeps in Acquire, no Release panics, and while one sleeps another holds a permit or owes a Broadcast |
| ErrGroupProgress.CallsComeToAnEnd | internal/errgroup/errgroup.go:108-177 | without new calls only a bounded number of steps remains, in any order and however often a woken Go sleeps again; no step is possible iff every call has come to its end, with all permits back and all wait groups empty |
| ErrGroup.ErrorsPersistInRuns | internal/errgroup/errgroup.go:157-177 | after a Wait returned an error every later Wait of the group returned the same |
| ErrGroup.FnErrorReachesGroup | internal/errgroup/errgroup.go:149-164 | the error that a function returns is the one recorded next, kept iff it is the group's first, and recorded before the permit goes back |
| ErrGroup.WaitErrorsAreStable | internal/errgroup/errgroup.go:166-177 | an error that a Wait returned is returned by every later Wait of the group, and it is the first one recorded |
| ErrGroup.NilWaitIsNotStable | internal/errgroup/errgroup.go:108-177 | a run in which Wait returns nil and then an error |
| ErrGroupWait.NilIsStableIffUnspoilt | internal/errgroup/errgroup.go:108-177 | after a Wait has returned nil, a later one returns nil if no error was on its way then and since then nobody called Go on the group, no waiting Go of it woke to find no permit, and no function of it failed, whatever other groups do; once the calls made have ended, only then |
| ErrGroupWait.GoSpoilsSuccess | internal/errgroup/errgroup.go:108-141 | a Go after a successful Wait never starts its function and leaves the group with the error of Acquire |
| ErrGroupWait.NilCanBeLostIffWorkIsLeft | internal/errgroup/errgroup.go:108-177 | after a Wait has returned nil, and with no further Go or TryGo on the group, an error can still be recorded iff some worker of it is inside Go, about to record an error, or in its function |
| ErrGroupWait.WaitingGoSpoilsNil | internal/errgroup/errgroup.go:108-177 | a run with two groups on one permit in which a Go that was waiting when Wait returned nil makes the next Wait return an error, with no call of Go or TryGo in between |
| ErrGroup.Group.constructor | internal/errgroup/errgroup.go:50-53 | a new group has no error and nobody to wait for |
| ErrGroup.Group.RecordErr | internal/errgroup/errgroup.go:157-164 | the stored error stays the first one recorded; the context is canceled with it |
| ErrGroup.Group.AfterTurn | internal/errgroup/errgroup.go:108-113 | joins the wait group with a permit, records the failure of Acquire, or waits |
| ErrGroup.Group.Go | internal/errgroup/errgroup.go:108-141 | Go up to its first wait, as the semaphore's step and what follows from its outcome; never a permit once the group is canceled |
| ErrGroup.Group.Resume | internal/errgroup/errgroup.go:108-141 | Go after a wakeup, likewise; it does not wait on once the group is canceled |
| ErrGroup.Group.TryGo | internal/errgroup/errgroup.go:119-126 | joins the wait group iff a permit is free |
| ErrGroup.Group.FnReturned | internal/errgroup/errgroup.go:149-155 | records the function's error if any, then releases one permit |
| ErrGroup.Group.Wait | internal/errgroup/errgroup.go:169-177 | returns the first error ever recorded or nil, and cancels either way |
| CircuitBreaker.StepKeepsInv | internal/circuitbreaker/circuitbreaker.go:116-210 | allow, recordResult, the short-circuit count and Reset keep the breaker's invariant in any order |
| CircuitBreaker.StateIsSound | internal/circuitbreaker/circuitbreaker.go:136-192 | in every state: closed iff failures are below the threshold, and then failures are the trailing failing results; otherwise failures are the threshold; half-open means the probe is running; calls are admitted, short-circuited or about to be counted |
| CircuitBreaker.AdmissionIsSound | internal/circuitbreaker/circuitbreaker.go:136-156 | admitted iff closed, or open with the cooldown over since the last trip; the latter becomes the probe |
| CircuitBreaker.TripsIffThresholdReached | internal/circuitbreaker/circuitbreaker.go:158-192 | in any run a result opens a closed breaker iff it makes the trailing failures reach the threshold (5 when not positive); a half-open one opens on a failure and closes with no failures on a success; an open one stays as it is |
| CircuitBreaker.ResetLetsCallsThrough | internal/circuitbreaker/circuitbreaker.go:245-251 | after a reset from any state the next call is let through; calls under way stay |
| CircuitBreaker.ProbeStaysAlone | internal/circuitbreaker/circuitbreaker.go:150-152 | nothing joins a half-open period in which only the probe runs |
| CircuitBreaker.StaleSuccessCloses | internal/circuitbreaker/circuitbreaker.go:179-188 | any other running call can end the half-open period |
| CircuitBreaker.ProbeIsAloneIffIdleBefore | internal/circuitbreaker/circuitbreaker.go:112-131 | callers are refused until the probe ends, whatever happens short of Reset, iff no operation was under way when the probe was admitted |
| CircuitBreaker.StaleSuccessClosesDuringProbe | internal/circuitbreaker/circuitbreaker.go:158-192 | a run in which an old success closes the breaker and a call is admitted beside the probe |
| CircuitBreaker.Breaker.constructor | internal/circuitbreaker/circuitbreaker.go:95-110 | a new breaker is closed with all counters zero |
| CircuitBreaker.Breaker.TransitionTo | internal/circuitbreaker/circuitbreaker.go:195-201 | changes the state and counts it, unless already there |
| CircuitBreaker.Breaker.Allow | internal/circuitbreaker/circuitbreaker.go:136-156 | the locked section is the system's allow step: who is let through, by state and cooldown, and nothing else changes than the state of a probe's breaker and the counters |
| CircuitBreaker.Breaker.RecordResult | internal/circuitbreaker/circuitbreaker.go:158-192 | the locked section is the system's record step: opens at the threshold-th failure in a row or the probe's, closes on the probe's success, and what it counts |
| CircuitBreaker.Breaker.Reset | internal/circuitbreaker/circuitbreaker.go:245-251 | the locked section is the system's reset step: closed, no failures, no opening time, from any state |
| KV.MaskIsRemainder | internal/kv/kv.go:214-218 | h & (2^k - 1) is h mod 2^k |
| KV.NextPow2 | internal/kv/kv.go:234-240 | the result is the least power of two that is at least n |
| KV.UnionSize | internal/kv/kv.go:165-174 | sizes of shards without a common key add up to the size of their union |
| KV.Memory.constructor | internal/kv/kv.go:75-103 | an empty store; the number of shards is the least power of two that suffices, 16 by default; the mask selects one of them for every hash |
| KV.Memory.ShardIsHashModShards | internal/kv/kv.go:214-218 | the shard of a key is its hash modulo the number of shards |
| KV.Memory.Get | internal/kv/kv.go:115-135 | answers as the plain map that never drops anything; only an expired binding of that key is dropped |
| KV.Memory.Put | internal/kv/kv.go:151-154 | binds the key in the plain map and in its shard |
| KV.Memory.Set | internal/kv/kv.go:138-143 | binds the key for good |
| KV.Memory.SetWithTTL | internal/kv/kv.go:146-155 | the key is found until now + ttl, or for good when ttl is not positive; other keys are found as before |
| KV.Memory.Delete | internal/kv/kv.go:158-163 | removes the key and nothing else |
| KV.Memory.Len | internal/kv/kv.go:166-174 | the size of the union of the shards, which has every live key and only keys held |
| KV.Memory.Sweep | internal/kv/kv.go:179-190 | afterwards exactly the bindings live at its instant are held |
| KV.StepKeepsInv | internal/kv/kv.go:115-190 | the steps of Get and Sweep keep the store faithful beside any writer |
| KV.InterleavedStoreIsFaithful | internal/kv/kv.go:115-190 | in every interleaving no live binding is dropped, and every answer is what the plain map of its read says at the instant of the check |
| KV.BoundIsFound | internal/kv/kv.go:138-163 | a writer's binding is found until its time to live is over, or for good; other keys are found as before |
| KV.DropRemovesExpired | internal/kv/kv.go:123-132 | what an expired Get removes: its key, iff the binding held then expires at the same instant as the one it read, and nothing else |
| KV.LiveKeyIsMissedIffItsReadExpires | internal/kv/kv.go:115-135 | a Get of a key that is live from its read to its check misses iff the binding it read has expired by the check, and another one has then replaced it; otherwise it answers with that binding's value |
| KV.UndisturbedGetIsRight | internal/kv/kv.go:115-135 | with no write of the key between read and check the answer is the plain map's at the instant of the check, whatever is written to other keys or swept |
| KV.SweptKeyIsGone | internal/kv/kv.go:176-191 | beside any other calls, a key that nobody writes during a Sweep is not held at its end if its binding had expired when the Sweep began |
| KV.ReplacedBindingCanMiss | internal/kv/kv.go:115-135 | a run in which a key is live throughout and Get misses it, because the binding read expires after its replacement |
| SyncBus.IdsAreNotReused | internal/eventbus/eventbus.go:53-70 | whoever is found under an old id later is the handler registered under it before |
| SyncBus.StillThereAscends | internal/eventbus/eventbus.go:88-92 | the ids kept by the second reading are those still registered, in order |
| SyncBus.ResolveByIds | internal/eventbus/eventbus.go:88-92 | the handlers found are those of the kept ids, one each |
| SyncBus.PublishDelivers | internal/eventbus/eventbus.go:75-98 | delivers to exactly the handlers registered at both readings, once each, in subscription order |
| SyncBus.CalledHandlerHasLeftIffUnsubscribed | internal/eventbus/eventbus.go:87-97 | a handler found at the second reading is no longer registered at its call iff its id was unsubscribed in between; otherwise the id still names it |
| SyncBus.LeaverIsStillCalled | internal/eventbus/eventbus.go:87-97 | a run in which a handler to be called is no longer registered |
| SyncBus.Sync.Subscribe | internal/eventbus/eventbus.go:57-61 | the locked section is the system's step and returns the new id |
| SyncBus.Sync.Unsubscribe | internal/eventbus/eventbus.go:65-67 | the locked section is the system's step |
| SyncBus.Sync.CollectIDs | internal/eventbus/eventbus.go:76-86 | the first reading, sorted: exactly the registered ids, ascending |
| SyncBus.Sync.LookUp | internal/eventbus/eventbus.go:87-93 | the second reading: the handlers still registered, in order |
| SyncBus.SortedDistinctIsAscending | internal/eventbus/eventbus.go:269-275 | sorting distinct ids gives the same ids in strictly ascending order |
| SyncBus.SortIDs | internal/eventbus/eventbus.go:269-275 | a sorting permutation |
| SyncBus.SortingSorts | internal/eventbus/eventbus.go:269-275 | the function that SortIDs computes sorts, and loses nothing |
| SyncBus.SinkingSorts | internal/eventbus/eventbus.go:271-273 | sinking one id among sorted ones puts it in its place and loses nothing |
| SyncBus.Insert | internal/eventbus/eventbus.go:271-273 | the inner loop is that sinking |
| SyncBus.SinkOnce | internal/eventbus/eventbus.go:271-273 | one swap moves the only unsorted place one to the left |
| AsyncBus.SubStepKeepsOk | internal/eventbus/eventbus.go:196-210 | every send, take, handling and stop keeps one subscriber's order and queue bound |
| AsyncBus.StepKeepsInv | internal/eventbus/eventbus.go:151-265 | every step keeps order, the worker count and the tally of offers |
| AsyncBus.DeliveryIsFifo | internal/eventbus/eventbus.go:185-211 | in every state, per subscriber, handled, in hand and queued make up what was sent, in order; offers are sends, drops or skips, and with DropWhenFull sends or drops |
| AsyncBus.QuietCloseDrains | internal/eventbus/eventbus.go:230-265 | after a Close that overlapped no Publish or Subscribe all workers have exited, and whoever was registered when it began has handled everything sent to it; for subscribers that left earlier see AsyncBusLeave |
| AsyncBus.QuietCloseDrainsRegistered | internal/eventbus/eventbus.go:230-265 | seen from the call: when Close begins with nobody inside Publish or Subscribe, whoever is registered then has handled everything sent to it once Close has returned |
| AsyncBus.UnsubscribeRaceLosesEvent | internal/eventbus/eventbus.go:171-211 | a run in which an event stays in the queue of a subscriber that left, for good |
| AsyncBusLeave.LeaverCanLoseIffListed | internal/eventbus/eventbus.go:171-211 | an event can still be sent to a subscriber that has left and never be handled iff a Publish under way has it on its list |
| AsyncBusLeave.UnlistedLeaverIsDrained | internal/eventbus/eventbus.go:171-265 | a subscriber that left while no Publish had it on its list has handled everything sent to it once a quiet Close has returned |
| AsyncBusClose.QuietCloseIsSealed | internal/eventbus/eventbus.go:232-241 | a Close that overlapped no Publish or Subscribe has stopped every subscriber there is |
| AsyncBusClose.SealedBusWindsDown | internal/eventbus/eventbus.go:196-265 | once all are stopped and no Subscribe is under way, every step of workers, publishers and Close leaves fewer of them |
| AsyncBusClose.SealedBusCanMove | internal/eventbus/eventbus.go:196-265 | and until all is done someone can move: no worker is stuck, no publisher waits for a stopped subscriber |
| AsyncBusClose.SealedCloseReturns | internal/eventbus/eventbus.go:232-265 | so in any order of steps Close, every Publish and every worker end within a known number of steps |
| AsyncBusClose.CloseIsSafeIffSealed | internal/eventbus/eventbus.go:232-242 | once Close has closed the stop channels it is bound to return, while nobody unsubscribes, iff every subscriber is stopped and no Subscribe is past its closed check |
| AsyncBusClose.CloseIsSafeIffNobodySubscribes | internal/eventbus/eventbus.go:151-242 | a Close that has marked the bus is bound to return, while nobody unsubscribes, iff no Subscribe is past its closed check |
| AsyncBusClose.ForgottenStays | internal/eventbus/eventbus.go:151-168 | a worker started for a subscriber that registered after Close stopped the others keeps Close waiting |
| AsyncBusClose.CloseReturnsUnlessForgotten | internal/eventbus/eventbus.go:232-242 | while nobody unsubscribes, Close can return iff no worker runs for a subscriber that registered after it closed the stop channels |
| AsyncBusClose.LateSubscriberHangsClose | internal/eventbus/eventbus.go:151-168 | a run with such a subscriber: Close never returns |
| AsyncBusClose.LateSubscriberOutlivesClose | internal/eventbus/eventbus.go:151-168 | a run in which Close returns before such a worker starts, which then runs and is never told to stop |
| AsyncBus.Async.constructor | internal/eventbus/eventbus.go:142-147 | a new bus is an initial state of the system |
| AsyncBus.Async.SubscribeLocked | internal/eventbus/eventbus.go:155-165 | the locked section is the system's step, under an id never used before |
| AsyncBus.Async.UnsubscribeLocked | internal/eventbus/eventbus.go:173-178 | the locked section is the system's step; a stop channel is closed at most once |
| AsyncBus.Async.Snapshot | internal/eventbus/eventbus.go:189-194 | the locked section lists exactly the registered subscribers |
| AsyncBus.Async.OfferOrDrop | internal/eventbus/eventbus.go:197-202 | the system's send when there is room, its drop otherwise |
| AsyncBus.Async.OfferOrSkip | internal/eventbus/eventbus.go:203-209 | sends only with room, gives up only on a stopped subscriber, blocks iff neither is possible |
| AsyncBus.OneMoreOffer | internal/eventbus/eventbus.go:196-202 | one turn of the loop extends the deliveries made so far by one subscriber |
| AsyncBus.Async.DeliverToAll | internal/eventbus/eventbus.go:196-202 | the loop, in any order, offers the event to each listed subscriber once; without DropWhenFull it leaves some for later only if a queue is full |
| AsyncBus.Async.Publish | internal/eventbus/eventbus.go:185-211 | on an open bus: with DropWhenFull every registered subscriber with room gets the event last in its queue and the others are counted as drops; without it nothing is dropped, those offered get the event, and the rest, full or not, are returned as left to be offered, which happens only if one of them is full; on a closed bus nothing happens |
| AsyncBus.Async.CloseMark | internal/eventbus/eventbus.go:233-235 | exactly one Close wins |
| AsyncBus.Async.StopAll | internal/eventbus/eventbus.go:237-240 | the loop closes the stop channel of exactly the registered subscribers and forgets them |
| AsyncBus.Async.CloseStop | internal/eventbus/eventbus.go:236-241 | the locked section is the system's step |
| AsyncWriter.StepKeepsCounts | internal/cacheutil/async_writer.go:60-75 | every step keeps outstanding jobs equal to queued, running and being submitted |
| AsyncWriter.StepKeepsJobs | internal/cacheutil/async_writer.go:60-144 | every step keeps each accepted job in one place, executed at most once, its error recorded once |
| AsyncWriter.NothingOutstandingMeansAllFinished | internal/cacheutil/async_writer.go:79-88 | when jobsWG.Wait can pass, every accepted job is finished |
| AsyncWriter.WriterIsSound | internal/cacheutil/async_writer.go:55-145 | no send meets a closed channel, the outstanding count is exact and never negative, nothing runs twice or unaccepted |
| AsyncWriter.CloseIsExactlyOnce | internal/cacheutil/async_writer.go:90-107 | when Close returns every accepted job ran exactly once, no rejected one ran, all workers have gone, and the error joins exactly the failed jobs' errors, nil iff none failed |
| AsyncWriter.FlushWaitsForEarlierJobs | internal/cacheutil/async_writer.go:77-88 | when Flush returns every job it owes has run once, and its error joins those that failed, and nothing but errors of accepted jobs that failed |
| AsyncWriter.FlushFinishesEarlierJobs | internal/cacheutil/async_writer.go:77-88 | seen from the call: every job accepted before a Flush or Close was called has run exactly once when it returns, and its error is included if it failed |
| AsyncWriter.ClosedWriterWindsDown | internal/cacheutil/async_writer.go:77-135 | every step of a closed writer other than a new call leaves fewer of them |
| AsyncWriter.ClosedWriterCanMove | internal/cacheutil/async_writer.go:77-135 | and it is never stuck: until the queue is empty, the workers have gone and all calls have returned, someone can move |
| AsyncWriter.CloseReturns | internal/cacheutil/async_writer.go:90-107 | so in any order of steps every Close and Flush returns within a known number of them |
| AsyncWriter.AsyncWriter.constructor | internal/cacheutil/async_writer.go:37-50 | an initial state with at least one worker |
| AsyncWriter.AsyncWriter.Reserve | internal/cacheutil/async_writer.go:60-66 | the first half of Submit is the system's step |
| AsyncWriter.AsyncWriter.Offer | internal/cacheutil/async_writer.go:67-74 | the select of Submit is the system's step; accepted iff there is room |
| AsyncWriter.AsyncWriter.Submit | internal/cacheutil/async_writer.go:55-75 | accepts iff open with room; a rejected job leaves queue and count as they were |
| AsyncWriter.AsyncWriter.MarkClosed | internal/cacheutil/async_writer.go:97-102 | the locked section of Close is the system's step |
| AsyncWriter.AsyncWriter.RecordErr | internal/cacheutil/async_writer.go:137-144 | the locked section is the system's step |
| AsyncWriter.AsyncWriter.RunOne | internal/cacheutil/async_writer.go:121-135 | one undisturbed turn of a worker takes the oldest job, runs it once, records its error iff it fails, and counts it as done |
| VersionedDir.MatchingTokensMeanSameTokens | internal/cacheutil/versioned_dir.go:64-81 | when no present sidecar differs, all cached files were produced under the very tokens of this Open |
| VersionedDir.EmptiedAreasHoldNothing | internal/cacheutil/versioned_dir.go:83-107 | once the entries directory and all extras are empty no cached file is left |
| VersionedDir.RenameKeepsInv | internal/fsutil/atomic.go:85-88 | putting a complete sidecar in place keeps cached files and sidecars consistent |
| VersionedDir.StepKeepsInv | internal/cacheutil/versioned_dir.go:31-107 | every system call, failure and crash keeps the directory consistent |
| VersionedDir.NoStaleEntrySurvives | internal/cacheutil/versioned_dir.go:31-107 | at every crash point each cached file carries exactly the values now in the sidecars; after Open(T) these are T |
| VersionedDir.StoredUnderSidecars | internal/cacheutil/versioned_dir.go:31-62 | whatever a process stores after its Open is stored under the values that the sidecars hold |
| VersionedDir.SidecarsAreNeverTorn | internal/fsutil/atomic.go:11-20 | each step leaves a sidecar alone, replaces it whole, or removes it with the whole directory |
| VersionedDir.Directory.TokensMismatched | internal/cacheutil/versioned_dir.go:66-81 | reports a mismatch iff some present sidecar differs from its token |
| VersionedDir.Directory.RemoveAll | internal/cacheutil/versioned_dir.go:84-105 | empties one area file by file, or stops at a failure |
| VersionedDir.Directory.NukeEntries | internal/cacheutil/versioned_dir.go:83-107 | on success no cached file is left anywhere |
| VersionedDir.Directory.CreateTempFile | internal/fsutil/atomic.go:54-58 | takes an unused name next to the target; cached files stay |
| VersionedDir.Directory.Abandon | internal/fsutil/atomic.go:60-63 | the error path ends the Open and removes the tempfile exactly if that removal does not fail; nothing else is touched |
| VersionedDir.Directory.Attempt | internal/fsutil/atomic.go:60-88 | a call on the tempfile: goes on iff it does not fail, and otherwise ends on the error path |
| VersionedDir.Directory.StageSidecar | internal/fsutil/atomic.go:54-73 | succeeds iff its three calls do; then the complete value is in a tempfile; cached files stay |
| VersionedDir.Directory.WriteSidecar | internal/fsutil/atomic.go:50-91 | succeeds iff its six calls do; then one more sidecar is in place; cached files stay |
| VersionedDir.Directory.WriteSidecars | internal/cacheutil/versioned_dir.go:52-61 | succeeds iff none of its calls fails; then all sidecars are in place; cached files stay |
| VersionedDir.Directory.Open | internal/cacheutil/versioned_dir.go:31-62 | a run of the step system; it succeeds iff none of the system calls it makes fails; on success the sidecars are the tokens and the cached files are gone iff a present sidecar differed, and without that it has made one call and seven per token |
| Vfs.ChildrenAreFound | internal/vfs/vfs.go:260-275 | a child of a directory is found under its prefix, by its base name |
| Vfs.FoundNamesAreChildren | internal/vfs/vfs.go:260-275 | whatever is found under the prefix, however deep, names a child that is stored |
| Vfs.DescendantsMeanChildren | internal/vfs/vfs.go:197-205 | some path has the directory's prefix iff the directory has a child |
| Vfs.AddKeepsTree | internal/vfs/vfs.go:137-146 | an entry below a stored directory keeps the tree |
| Vfs.RemoveKeepsTree | internal/vfs/vfs.go:197-206 | removing an entry without children keeps the tree |
| Vfs.LessIsStrictOrder | internal/vfs/vfs.go:238 | the order of the names is a strict total order |
| Vfs.LessIsBefore | internal/vfs/vfs.go:238 | a name comes before another iff it is a proper start of it or has the smaller character at their first difference |
| Vfs.InsertKeepsSorted | internal/vfs/vfs.go:238 | putting a new name into its place keeps the names in order |
| Vfs.Mem.constructor | internal/vfs/vfs.go:83-90 | a new file system has the directory "." only, and is a tree |
| Vfs.Mem.WriteFile | internal/vfs/vfs.go:127-147 | stores iff the path is no directory and its parent is one; what was stored is then read back, every other path reads as before, and the tree is kept |
| Vfs.Mem.MkdirAllLocked | internal/vfs/vfs.go:169-185 | succeeds iff nothing on the way is a file, and then adds exactly the missing directories; a failure changes nothing; the tree is kept |
| Vfs.Mem.MkdirAll | internal/vfs/vfs.go:161-185 | by the text of the paths: succeeds iff no path on the way is a file; then the files are the former ones and the missing directories on the way, otherwise the former ones |
| Vfs.Mem.Remove | internal/vfs/vfs.go:189-208 | removes exactly the path; refuses iff it is missing or, unless it is ".", has a child; the tree is kept |
| Vfs.NonEmptyIsRefusedIffNotDot | internal/vfs/vfs.go:189-208 | of the directories that have a child, the prefix test refuses all but "." |
| Vfs.DotIsRemovedWithChild | internal/vfs/vfs.go:189-208 | a tree in which "." has a child, is removed, and leaves that child without its parent |
| Vfs.Mem.ReadDir | internal/vfs/vfs.go:212-256 | the names are exactly the base names of the directory's children, each before the next by its characters; which error otherwise |
| Vfs.Mem.CollectNames | internal/vfs/vfs.go:221-238 | the loop over all entries, in any order, lists what relativeChild finds, once each, in order |
| Vfs.AddListed | internal/vfs/vfs.go:227-237 | one turn of that loop |
| Scheduler.KthLaunch | internal/scheduler/scheduler.go:281-289 | spaced launches: the k-th is at firstDue + k * interval or later |
| Scheduler.LaunchesBounded | internal/scheduler/scheduler.go:281-289 | launches up to T number at most 1 + floor((T - firstDue) / interval) |
| Scheduler.LaunchKeepsEntry | internal/scheduler/scheduler.go:270-277 | launching a due, idle entry keeps its launches spaced and its due time right |
| Scheduler.EntryLaunchesAreSpaced | internal/scheduler/scheduler.go:54-58 | for serialised RunDue calls: the spacing, the bound, and one launch at most for a one-shot job |
| Scheduler.Scheduler.constructor | internal/scheduler/scheduler.go:143-156 | a new scheduler has no jobs |
| Scheduler.Scheduler.Schedule | internal/scheduler/scheduler.go:170-195 | which error, checked in which order; otherwise a fresh entry due at At or one interval from now, and a wake signal; on an error nothing changes |
| Scheduler.Scheduler.Unschedule | internal/scheduler/scheduler.go:199-210 | removes the entry iff it is there, and then signals |
| Scheduler.Scheduler.NextDue | internal/scheduler/scheduler.go:226-241 | the earliest of all due times, none iff there is none |
| Scheduler.Scheduler.NextSleep | internal/scheduler/scheduler.go:363-378 | sleeps until the earliest due time, at least a microsecond and at most a minute, a minute when nothing is ever due |
| Scheduler.Scheduler.RunDue | internal/scheduler/scheduler.go:251-277 | launches every due, idle entry once and puts its due time one interval from now, or clears it without an interval; leaves the rest alone; returns how many were launched |
| SchedulerLoop.LaunchSleepsShort | internal/scheduler/scheduler.go:281-289 | a launch during a sleep does not make the sleep too long for its entry |
| SchedulerLoop.ComputeSleepKeepsInv | internal/scheduler/scheduler.go:363-378 | the sleep chosen ends within a microsecond of every idle entry's due time |
| SchedulerLoop.RunEndKeepsInv | internal/scheduler/scheduler.go:291-293 | a run that ends during a sleep does not make its entry late |
| SchedulerLoop.StepKeepsInv | internal/scheduler/scheduler.go:331-360 | every step of the loop, of other callers and of time keeps entries on time |
| SchedulerLoop.LaunchesAreOnTime | internal/scheduler/scheduler.go:331-378 | in every state of every run no entry has been due and idle for more than a microsecond, and the next poll launches it |
| SchedulerLoop.EntryStep | internal/scheduler/scheduler.go:251-293 | unless it is scheduled or unscheduled itself, an entry is left alone, launched when ready, or has its run end |
| SchedulerLoop.WaitsUntilLaunched | internal/scheduler/scheduler.go:331-378 | along any run a waiting entry stays as it is until it is launched on time |
| SchedulerLoop.ReadyEntriesAreLaunched | internal/scheduler/scheduler.go:331-378 | in any run of Schedule, Unschedule, other RunDue calls and run ends: once an entry has been due and idle for more than a microsecond it has been launched, no earlier than it was ready and within a microsecond of that |
| SchedulerLoop.NextLaunchIsAnIntervalLater | internal/scheduler/scheduler.go:54-58 | an entry that is idle again when its interval is over is launched between one interval and one interval and a microsecond after its previous launch; a new entry within a microsecond of its first due time |
| SchedulerLoop.FirstLaunchIsOnTime | internal/scheduler/scheduler.go:184-195 | a job's first launch is at the instant it was scheduled for, or one interval after it was scheduled, at most a microsecond late |
| SchedulerLoop.RemovedStaysAway | internal/scheduler/scheduler.go:199-210 | an unscheduled job is not there, and so not launched, until it is scheduled again |
| SchedulerLoop.OneShotIsNotLaunchedAgain | internal/scheduler/scheduler.go:281-289 | a job without an interval is not ready again after its launch, in any run |
| SchedulerLoop.LoopAlwaysMoves | internal/scheduler/scheduler.go:346-360 | time stops only for the loop's own steps, which lead to a sleep of at most the idle timeout and then to a poll |
| SchedulerLoop.LoopLaunchesAreSpaced | internal/scheduler/scheduler.go:251-289 | launch spacing in any run of the loop |
| SchedulerLoop.LatenessBoundIsTight | internal/scheduler/scheduler.go:369-373 | a run in which an entry waits the whole microsecond |
| SchedulerRuns.SumMoves | internal/scheduler/scheduler.go:267-316 | a step moves at most one invocation, so any tally of invocations changes by that one |
| SchedulerRuns.StepKeepsFlags | internal/scheduler/scheduler.go:267-293 | every step keeps each running flag the number of claimed invocations of its entry |
| SchedulerRuns.StepKeepsWaitGroup | internal/scheduler/scheduler.go:274-292 | every step keeps the wait group's count equal to the invocations in it |
| SchedulerRuns.StepKeepsPermits | internal/scheduler/scheduler.go:295-301 | every step keeps permits in flight equal to invocations between Acquire and Release |
| SchedulerRuns.StepKeepsCallers | internal/scheduler/scheduler.go:267-276 | every step keeps each RunDue call and the invocation it is starting in step with each other |
| SchedulerRuns.InvocationsNeverOverlap | internal/scheduler/scheduler.go:251-316 | whatever the RunDue callers do, an entry has at most one claimed invocation, and its running flag is set iff it has one |
| SchedulerRuns.InvocationsAreCounted | internal/scheduler/scheduler.go:251-316 | the wait group counts the invocations between Add and Done, permits in use are those between Acquire and Release, within capacity, and no waiter is forgotten |
| SchedulerRuns.CallersNeverBlock | internal/scheduler/scheduler.go:267-277 | a RunDue call can always return, skip, claim or go on with its claim |
| SchedulerRuns.InvocationsNeverBlock | internal/scheduler/scheduler.go:291-316 | an invocation can always move unless its Acquire sleeps; its Release never panics |
| SchedulerRuns.LaunchMovesDueTime | internal/scheduler/scheduler.go:281-289 | with concurrent callers, a launch puts its entry's due time one interval after its caller's instant, or clears it without an interval, and touches no other entry |
| SchedulerProgress.InvocationsComeToAnEnd | internal/scheduler/scheduler.go:251-316 | without new calls only a bounded number of steps remains, in any order and however often a woken Acquire sleeps again; no step is possible iff every RunDue call and invocation has come to its end, with no entry running and all permits back |
| SchedulerRuns.WaitSeesAllButClaims | internal/scheduler/scheduler.go:380-395 | the wait group is empty iff every invocation is still between its claim and its Add; there is then none iff no RunDue call is starting one; with no RunDue in progress no permit is out either |
| SchedulerRuns.WaitCanMissAClaim | internal/scheduler/scheduler.go:267-276 | a run in which WaitInflight may return although a claimed invocation works later |
| SchedulerRuns.OverlapNeedsReplacement | internal/scheduler/scheduler.go:190-194 | whenever two live invocations have one name they belong to different entries, of which at most one is registered |
| SchedulerOverlap.OverlapIffEarlierEntryLives | internal/scheduler/scheduler.go:184-289 | after a Schedule of a name two invocations of it can come to overlap, with no further Schedule of the name, iff an earlier entry of the name is running or is on the list of a RunDue call under way |
| SchedulerSpacing.EarlyLaunchIffListed | internal/scheduler/scheduler.go:251-289 | an entry whose due time was moved past the instants of the calls that list it can be launched early, before it is collected again, iff some call lists it |
| SchedulerSpacing.OneShotIsLaunchedTwice | internal/scheduler/scheduler.go:251-289 | a run in which a job without an interval is launched twice |
| SchedulerRuns.SameNameCanOverlap | internal/scheduler/scheduler.go:190-194 | a run in which two invocations of one name work at the same time |

## Left out

- Rounding of floats, overflow of durations and of int, wrap-around of 64-bit ids and counters: counts and instants are unbounded integers, tokens and delays exact reals.
- Rate limiting: Allow, Wait and Tokens are thin wrappers; the Manual limiter is a test double; RateLimit.Bucket.WaitN has no competing consumers, under which no bound on sleeps holds.
- Random: the statistical quality of sources; Pick, Bytes and UUID.
- Retry: OnRetry only observes; the branch for "no attempts ran" cannot be reached, because there is always at least one attempt.
- Semaphore: Stats and accessors; the goroutine that broadcasts on cancellation does so without the mutex, so that a waiter can miss it: its Broadcasts are arbitrary extra wakeups and no wakeup is promised for cancellation.
- Error group: the semaphore is used by the groups only and is installed before any Go. Without a limiter Go never looks at the context. SetLimit and SetLimiter are not modelled.
- Breaker: OnStateChange callbacks, which run with the mutex dropped; operations that panic; a context that has ended before Do starts; IsFailure is the boolean that a result is recorded with. The counters of failures and of transitions are carried along, but no theorem is about them.
- Store: the janitor ticker, Close, GetOrSet; FNV is an arbitrary hash function; the concurrent part keeps one map for all shards, since locks of different shards only add interleavings that the steps already allow.
- AsyncBus.Async.Publish: the method returns the subscribers it would have to wait for; the wait for a full queue is made of steps of the system.
- Async bus: the worker goroutine is modelled as steps, not as a method. Nothing is claimed about what a Publish that overlaps Close leaves behind.
- AsyncWriter: statistics, byte counts, nil writers and nil jobs, jobs that panic.
- Versioned directory: a Clear by a process that goes on storing without another Open, and a Clear beside another process's Open; loss of power with operations reordered, a crash inside Clear, a changed set of token names, token names or extras that are the same path, the streaming variant of the atomic write, file permissions.
- Files: Stat, SetClock and the real file system; filepath.Clean is outside, and methods take the path that it returned; all directories that one MkdirAll adds get one clock reading; the directory flag that ReadDir reports depends on map order.
- Scheduler.Scheduler.RunDue: is for one caller at a time, where an entry cannot change between collecting and claiming; the concurrent callers are in SchedulerRuns, where launch spacing can fail as SchedulerSpacing says.
- Scheduler: entries are values in the map for one caller and in the loop; their identity, and runs of entries that have been replaced, are in SchedulerRuns. Not modelled: error reports, Names, real timers, the end of Start by its context; in SchedulerLoop code takes no time and a sleep lasts exactly as long as asked; the limiter in SchedulerRuns is used by the scheduler only.
- HTTP, database, queue, terminal and web code, command programs, and the remaining packages under internal.
