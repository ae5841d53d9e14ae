# KeyCompute: a verified model of its concurrent core

KeyCompute is an AI gateway. This project models the four parts of it in which
what matters is a whole run and not a single call, and proves what they promise.

* **Request lifecycle.** Every request has a bounded queue of intermediate trace
  updates, drained by a worker that is spawned on demand and retires when idle;
  flushes are barriers in that queue, and failures are kept in a marker set
  (`Queue.dfy`, `QueueSafety.dfy`, `QueueLeftovers.dfy`, `LeftoverBarrier.dfy`,
  `RequestQueue.dfy`). Behind it stand the persisted request, attempt and billing rows,
  changed concurrently by the protocol handler, the attempt finisher, billing and the
  stale-trace reconciler
  (`Lifecycle.dfy`, `LifecycleSafety.dfy`, `LifecycleOutcomes.dfy`, `Reconciliation.dfy`,
  `TraceStore.dfy`).
  `EndToEnd.dfy` puts the two halves together.
* **Optional cache.** An epoch-fenced single-flight recovery gate with capped
  exponential backoff (`Recovery.dfy`), a lock with a time to live and an
  ownership-checked release (`Lock.dfy`), and the lock-protected cache fill built on
  both (`CacheFill.dfy`, `CacheCourse.dfy`, `CacheService.dfy`).
* **Read routing and migrations.** Circuit breaker, weighted selection and the
  three-phase read retry (`Router.dfy`), the nesting-aware scan of common table
  expressions (`CteScan.dfy`), and the migration loop of any number of runners under
  one advisory lock (`Migrations.dfy`).
* **Money.** Charges and commission shares rounded half-even at ten decimals, and
  the selection of the two commission rates (`Money.dfy`, `Billing.dfy`).

`dafny verify dfyconfig.toml` checks all of it.

## How the model is built

Concurrency is a state machine: one action per critical section, channel operation,
script or transaction, `Enabled` and `Step` for its guard and effect, `Run` for the
sequences of states they allow. Invariants are proved step by step and then for every
state of every run. The source's mutable objects are classes with the same fields;
their methods keep the object in a state that some run reaches, and are proved against
what they promise. Where a method gives up its lock, waits, or issues statements outside a
transaction, a method `OthersRun` does arbitrarily many steps of everybody else.

The clock, the network, random rolls, the database's answers and the callers'
computations are parameters or nondeterministic choices. Redis, PostgreSQL and tokio
appear as atomic steps with a store, constraints and time-outs; a constraint that would
be violated rolls the transaction back.

## What does not hold, and when it does

* The two commission shares can exceed the bill, and nothing bounds the sum of the two
  rates: each is chosen on its own and only kept between zero and one.
  `TwoFullRatesPayDouble` pays out twice a bill, `EvenSplitOverpays` one unit too much.
  `SharesAgainstBill` says exactly when it happens, for all rates: below one in sum never;
  at one on two ties that both round up; above one as soon as the excess is more than a
  unit of 10^-10, and up to there by how the parts round. For stored rates, which have four
  decimals, `PairNeverOverpaysIff` turns this into a condition on the two rates alone (a sum
  below one, or of one with a first rate that is no odd multiple of 0.0008), and
  `RulesNeverOverpayIff` into one on a rule list and its defaults.
* The handler's own finish can leave a trace unmarked after a failed flush:
  `HandlerFinishCanMissPartial`, with the exact condition in `HandlerFinishIsPartialIff`.
  The attempt finish never does, and the explicit flush only if its write fails.
* Reconciliation evaluates its stale query twice, and can terminate a request and leave
  its attempt open in three ways: by a tie at the batch limit (`TieCanLeaveAttemptOpen`), by
  a row that another session unlocks in between (`UnlockCanLeaveAttemptOpen`), and by a node
  task that ends in between, which no lock on requests prevents
  (`TaskEndCanLeaveAttemptOpen`). `ReconcileClosesAttemptsIff` gives the exact condition on
  the rows and tasks that each statement sees, the limit and the locks.
* A failure can escape all flushes begun after some point, because a flush, cleanup or
  barrier from before it takes the marker: `LeftoverBarrierTakesMarker` is such a run.
  `LaterFailuresShowIff` says exactly from which states: those in which such a leftover
  exists, and from each of them some continuation loses a failure and answers Ok. The trace
  is partial all the same once the earlier call has written its error down
  (`LossReachesTheTrace`).
* A backoff configured with its minimum above its maximum starts out above the cap
  (`DelayIsCappedExponential`).
* The scan of common table expressions answers by suffixes: yes exactly if some word at
  depth zero that a space follows ends in a write keyword (`AnswerIsBySuffix`). So it does not
  see a write inside parentheses (`NestedWriteIsInvisible`), and an update that returns rows
  to an outer read counts as a read (`UpdateReturningCountsAsRead`); it takes a name that ends
  in a keyword for one (`ColumnNameLooksLikeWrite`); and quotes mean nothing to it
  (`LiteralLooksLikeWrite`).
* Cache entries and negative markers share one key space. An entry whose key ends in the
  marker suffix hides the rest of that key (`CachedSuffixHidesKey`), and one that starts
  with the lock infix meets a lock; `EntryMeetsMarker` and `EntryMeetsLock` say exactly when.
* Round robin is not fair at the wrap of its counter: of as many consecutive picks as there
  are healthy replicas each is chosen once exactly if the counter does not wrap among them or
  their number divides its range (`RoundRobinIsFairIff`); three replicas at the wrap are
  `WrapRepeatsReplica`.
* A comment in the cache fill says that only the lock holder recomputes. Contended and
  gated callers may recompute too; exclusion is proved for lock holders only.
* Entries of a worker killed from outside are lost without a marker. The accounting
  theorem says so: only such a worker loses entries.

## Model

| member | source | states |
|---|---|---|
| `QueueSafety.StepKeepsStructure` | crates/keycompute-db/src/lifecycle.rs:122-327 | every step keeps: a worker that can process is the registered one, a leaving worker holds cleanup barriers only, a registered worker's channel is closed only if it was killed |
| `QueueSafety.StepKeepsOrder` | crates/keycompute-db/src/lifecycle.rs:122-327 | every step keeps: what was accepted is what was settled, in order, followed by what the registered worker still holds |
| `QueueSafety.StepKeepsInv` | crates/keycompute-db/src/lifecycle.rs:122-327 | every step keeps structure, order, and the books that tie flushes and cleanups to their barriers and answers |
| `QueueSafety.RunIsSafe` | crates/keycompute-db/src/lifecycle.rs:108-327 | all queue invariants hold in every state of every interleaving of producers, workers, flushes and cleanups |
| `QueueSafety.AcceptedEntriesAreAccounted` | crates/keycompute-db/src/lifecycle.rs:122-156 | in every state of every run an accepted entry is settled at its place in acceptance order or held by the live registered worker; only a killed worker loses entries |
| `QueueSafety.HistoryOnlyGrows` | crates/keycompute-db/src/lifecycle.rs:279-318 | acceptance order and fates are never rewritten, across all worker generations |
| `QueueSafety.OneWorkerAtATime` | crates/keycompute-db/src/lifecycle.rs:279-327 | at most one worker of a request can receive, write or answer, and it is the registered one |
| `QueueSafety.ClosedChannelMeansAbort` | crates/keycompute-db/src/lifecycle.rs:137-145 | a registered channel is closed exactly when its worker was killed; idle retirement never leaves one behind |
| `QueueSafety.AnsweredBarrierDrains` | crates/keycompute-db/src/lifecycle.rs:204-246 | an acknowledged flush barrier has every earlier accepted entry settled |
| `QueueSafety.ClearedMarkerIsReported` | crates/keycompute-db/src/lifecycle.rs:184-233 | whoever clears a set marker, worker, flush or detached cleanup, leaves a flush that has erred or must, begun since any point from which all takers are |
| `QueueSafety.StepKeepsNewTakers` | crates/keycompute-db/src/lifecycle.rs:173-246 | every step keeps: what can still take the marker belongs to a flush begun since the base point |
| `QueueSafety.StepKeepsNoSilentLoss` | crates/keycompute-db/src/lifecycle.rs:158-277 | every step keeps: after a failure since the base point the marker is set or some flush begun since errs |
| `QueueSafety.FailureIsMarkedOrReported` | crates/keycompute-db/src/lifecycle.rs:71-76 | over every run, from the first failure on the marker is present or some flush of the request has returned or must return an error, and a report stands for ever |
| `QueueSafety.StepKeepsCleanAnswers` | crates/keycompute-db/src/lifecycle.rs:237-246 | every step keeps: a barrier answered without failure has no unreported failed write between the base point and it |
| `QueueSafety.CleanFlushVouches` | crates/keycompute-db/src/lifecycle.rs:216-218 | a flush that returned Ok means that any failed write before its barrier is reported by another flush |
| `QueueSafety.AllCleanMeansMarked` | crates/keycompute-db/src/lifecycle.rs:204-234 | if every flush returned Ok, a request with any failure still carries its marker |
| `QueueSafety.VouchesSince` | crates/keycompute-db/src/lifecycle.rs:204-246 | all of this holds from any state of a run without leftovers on, earlier errors notwithstanding |
| `QueueSafety.OkFlushVouchesSince` | crates/keycompute-db/src/lifecycle.rs:204-246 | from such a state on every failure is marked or reported by a flush begun since, and flushes that all return Ok vouch that no write before their barriers failed since |
| `QueueLeftovers.LaterFailuresShowIff` | crates/keycompute-db/src/lifecycle.rs:173-246 | for every reachable state: all its continuations keep later failures marked or reported by later flushes, exactly if no flush, cleanup or barrier is left that can take the marker; and exactly then later flushes that are all Ok leave a later failure marked |
| `QueueLeftovers.LeftoverLoses` | crates/keycompute-db/src/lifecycle.rs:173-246 | from every reachable state with a leftover there is a continuation to a failure that neither marker nor later flush shows, and on to a flush that answers Ok |
| `QueueLeftovers.CleanPointShowsLoss` | crates/keycompute-db/src/lifecycle.rs:204-246 | from every reachable state without a leftover no continuation loses a failure |
| `QueueLeftovers.FlushLeftLoses` | crates/keycompute-db/src/lifecycle.rs:216-233 | a flush in progress can take the marker of a failure that comes later, once its worker is killed or its cleanup is scheduled |
| `QueueLeftovers.CleanupLeftLoses` | crates/keycompute-db/src/lifecycle.rs:184-202 | so can every detached cleanup that has not finished |
| `QueueLeftovers.BarrierLeftLoses` | crates/keycompute-db/src/lifecycle.rs:237-246 | so can every barrier in the queue: the channel fills, an update is refused, and the worker drains to the barrier |
| `QueueLeftovers.DrainToBarrier` | crates/keycompute-db/src/lifecycle.rs:279-318 | the worker can always be brought to take the marker at the first barrier it still holds |
| `QueueLeftovers.MakeFailure` | crates/keycompute-db/src/lifecycle.rs:248-277 | from every reachable state one more write can fail, with flushes and cleanups as they were |
| `QueueLeftovers.OkFlushFollows` | crates/keycompute-db/src/lifecycle.rs:204-233 | from every reachable state without the marker a new flush can return Ok |
| `LeftoverBarrier.LeftoverBarrierTakesMarker` | crates/keycompute-db/src/lifecycle.rs:227-246 | a concrete run: the barrier of a timed-out flush takes the marker of a failure that came after its return |
| `QueueSafety.EveryRequestIsSafe` | crates/keycompute-db/src/lifecycle.rs:86-95 | interleaving any number of requests over the shared maps keeps all of this for each |
| `RequestQueues.RequestQueue.constructor` | crates/keycompute-db/src/lifecycle.rs:87-95 | a fresh recorder has no worker, marker or history |
| `RequestQueues.RequestQueue.Spawn` | crates/keycompute-db/src/lifecycle.rs:108-120 | a spawned worker is registered under a new generation with an empty channel |
| `RequestQueues.RequestQueue.SendRound` | crates/keycompute-db/src/lifecycle.rs:127-151 | one round under the map lock is exactly one protocol step and returns what try_send returned |
| `RequestQueues.RequestQueue.TrySend` | crates/keycompute-db/src/lifecycle.rs:122-156 | Ok means that the update was appended; unless the worker was killed, an error means exactly that the channel was full, and nothing else changed; after a killed worker it means that others spawned another one meanwhile |
| `RequestQueues.RequestQueue.EnqueueIntermediate` | crates/keycompute-db/src/lifecycle.rs:158-171 | a refused update leaves its failure marker, whatever the others do between refusal and marking |
| `RequestQueues.RequestQueue.ScheduleCleanup` | crates/keycompute-db/src/lifecycle.rs:173-202 | a bounced flush returns its error and one detached cleanup holds the current worker's handle |
| `RequestQueues.RequestQueue.BeginFlush` | crates/keycompute-db/src/lifecycle.rs:204-215 | the barrier is queued behind everything accepted before the call, or bounces off a full channel, or off another worker after a killed one |
| `RequestQueues.RequestQueue.AwaitBarrier` | crates/keycompute-db/src/lifecycle.rs:216-233 | Ok exactly when the worker answered that nothing had failed |
| `RequestQueues.RequestQueue.FlushIntermediateQueue` | crates/keycompute-db/src/lifecycle.rs:204-234 | with all others running meanwhile, Ok means that everything accepted before the call is settled and no failed write among it goes unreported; a refused barrier leaves a cleanup behind |
| `RequestQueues.RequestQueue.WorkerTurn` | crates/keycompute-db/src/lifecycle.rs:287-318 | a turn settles the head of the channel with the fate its write had; the worker stops and unregisters exactly when it is idle with an empty channel |
| `RequestQueues.RequestQueue.Retire` | crates/keycompute-db/src/lifecycle.rs:291-326 | retirement unregisters the worker and loses nothing |
| `RequestQueues.RequestQueue.ProcessIntermediateUpdate` | crates/keycompute-db/src/lifecycle.rs:237-277 | a failed write sets the marker; a barrier takes it and answers what it was, with others at work between taking and answering |
| `Lifecycle.FindLease` | crates/keycompute-db/src/lifecycle.rs:457-468 | finds an attempt of the task and lease if and only if there is one |
| `LifecycleSafety.StepKeepsRequests` | crates/keycompute-db/src/lifecycle.rs:397-946 | every transaction keeps: terminal exactly when finished, not_applicable only when finished; and freezes finished requests, partial quality and settled billing |
| `LifecycleSafety.StepKeepsAttempts` | crates/keycompute-db/src/lifecycle.rs:446-946 | every transaction keeps numbering, at most one final attempt per request, unique leases, and freezes finished attempts |
| `LifecycleSafety.RunIsSound` | crates/keycompute-db/src/lifecycle.rs:397-946 | all of it holds in every state of every interleaving |
| `LifecycleSafety.RunEvolves` | crates/keycompute-db/src/lifecycle.rs:397-946 | between any two states of a run, requests and attempts only move forward |
| `LifecycleSafety.FirstFinishWins` | crates/keycompute-db/src/lifecycle.rs:688-852 | the first step to finish a request fixes status, error, route and finish time for ever, and the status is terminal |
| `LifecycleSafety.BillingAndQualityOnlyMoveOn` | crates/keycompute-db/src/lifecycle.rs:854-904 | over every run succeeded billing is absorbing, failed only becomes succeeded, not_applicable implies finished, and partial is never undone |
| `LifecycleSafety.MaxIsCount` | crates/keycompute-db/src/lifecycle.rs:475-476 | the highest attempt number equals the number of attempts, so the insert continues the numbering |
| `LifecycleSafety.AttemptNumbersAreExact` | crates/keycompute-db/src/lifecycle.rs:469-494 | in every reachable state a request's attempts are numbered exactly 1..n, without repetition |
| `LifecycleSafety.RepeatedStartReturnsOriginal` | crates/keycompute-db/src/lifecycle.rs:457-468 | any later start for the same task and lease returns the original attempt and changes nothing |
| `LifecycleSafety.CommittedFinishMeans` | crates/keycompute-db/src/lifecycle.rs:584-796 | a committed attempt finish closes its own attempt even when the request was finished before, and after a failed flush leaves the trace partial on every branch |
| `LifecycleSafety.FailedFlushIsPartialForEver` | crates/keycompute-db/src/lifecycle.rs:595-598 | such a trace is partial in every later state |
| `LifecycleSafety.MarkedPartialForEver` | crates/keycompute-db/src/lifecycle.rs:565-582 | so is one marked by an explicit flush |
| `LifecycleSafety.FinishIsDecidedOnce` | crates/keycompute-db/src/lifecycle.rs:649-682 | over every run the first committed finish decides an attempt: the same finish again succeeds and changes no attempt, any other is refused |
| `LifecycleOutcomes.CommittedStartMeans` | crates/keycompute-db/src/lifecycle.rs:446-509 | exactly when a start commits, and the attempt it adds or returns |
| `LifecycleOutcomes.CommittedFinishes` | crates/keycompute-db/src/lifecycle.rs:584-796 | exactly when an attempt finish commits, and every field of the rows it leaves |
| `LifecycleOutcomes.FinishIsKept` | crates/keycompute-db/src/lifecycle.rs:618-706 | over every run the attempt keeps status, error, end reason and time of its finish for ever, and a request it ended its status, error and finish time; billing is what was a fact before or else what the finish proposed, and moves on from there only |
| `LifecycleOutcomes.HandlerFinishes` | crates/keycompute-db/src/lifecycle.rs:798-852 | exactly when the handler's finish commits, and every field of the row it leaves |
| `LifecycleOutcomes.HandlerFinishIsKept` | crates/keycompute-db/src/lifecycle.rs:822-826 | over every run its outcome stands whatever attempts finish later, and a request never attempted stays partial |
| `LifecycleOutcomes.VerdictIsKept` | crates/keycompute-db/src/lifecycle.rs:926-934 | over every run what the reconciler wrote to a request stands, and tells the route and the node task it saw |
| `LifecycleOutcomes.AttemptVerdictIsKept` | crates/keycompute-db/src/lifecycle.rs:913-925 | so does what it wrote to an attempt |
| `LifecycleOutcomes.FreshRequestIsSpared` | crates/keycompute-db/src/lifecycle.rs:884 | over every run a request whose row was created or changed at or after the cutoff is neither terminated nor are its attempts closed |
| `LifecycleOutcomes.FreshBillingIsSpared` | crates/keycompute-db/src/lifecycle.rs:888-904 | over every run billing is not decided of a request that finished at or after the cutoff, nor twice |
| `LifecycleOutcomes.UsageIsBilledForEver` | crates/keycompute-billing/src/usage_log.rs:262-311 | over every run a committed usage record that was inserted stays in the ledger, and a request it was committed for stays billed; a record that does not match commits nothing |
| `LifecycleSafety.HandlerFinishIsPartialIff` | crates/keycompute-db/src/lifecycle.rs:823-847 | exactly when the handler's finish after a failed flush leaves the trace partial |
| `LifecycleSafety.HandlerFinishCanMissPartial` | crates/keycompute-db/src/lifecycle.rs:828-847 | a repeated finish that does not |
| `LifecycleSafety.ReconcileKeepsRequests` | crates/keycompute-db/src/lifecycle.rs:869-946 | reconciliation leaves finished requests alone but for stale pending billing, and keeps billing facts |
| `LifecycleSafety.ReconcileKeepsAttempts` | crates/keycompute-db/src/lifecycle.rs:913-925 | reconciliation keeps numbering and at most one final attempt, and touches no finished attempt |
| `Reconciliation.BatchMembership` | crates/keycompute-db/src/lifecycle.rs:870-887 | a request is in every evaluation of the limited, ordered, lock-skipping query, or in none, exactly by counting eligible rows as old as it or older |
| `Reconciliation.ReconcileClosesAttemptsIff` | crates/keycompute-db/src/lifecycle.rs:907-934 | for all rows and node tasks that the two statements see, limits and locks: whatever the two evaluations pick, all attempts of what is terminated are closed, exactly if every request with an open attempt is sure to be in the first batch or sure not to be in the second (or the locks of the first statement rule out what others are said to have changed) |
| `Reconciliation.SameRowsWithoutTiesClose` | crates/keycompute-db/src/lifecycle.rs:870-887 | the condition holds without ties when the eligible rows stay the same: no lock released, no active node task ended, nothing stale added in between |
| `Reconciliation.RoomyBatchesClose` | crates/keycompute-db/src/lifecycle.rs:870-887 | it holds too, ties or not, when all eligible rows fit the limit and nothing becomes eligible in between |
| `Reconciliation.TieCanLeaveAttemptOpen` | crates/keycompute-db/src/lifecycle.rs:870-887 | a tie at the batch limit that leaves an attempt open |
| `Reconciliation.UnlockCanLeaveAttemptOpen` | crates/keycompute-db/src/lifecycle.rs:886 | a lock released between the statements that leaves one open, with room for all and no tie |
| `Reconciliation.TaskEndCanLeaveAttemptOpen` | crates/keycompute-db/src/lifecycle.rs:883-886 | a node task that fails between the statements leaves one open, without any lock, tie or limit |
| `Reconciliation.ReconciledRequestHasOneFinal` | crates/keycompute-db/src/lifecycle.rs:913-925 | a picked request that had open attempts ends with all closed and exactly one final attempt |
| `Reconciliation.FinalIsTheLatest` | crates/keycompute-db/src/lifecycle.rs:916 | an attempt that reconciliation makes final has the highest number of those that were open |
| `TraceStores.TraceStore.UpdateRequest` | crates/keycompute-db/src/lifecycle.rs:436 | a guarded update changes one row and its update time, or none |
| `TraceStores.TraceStore.constructor` | crates/keycompute-db/src/lifecycle.rs:397-424 | an empty store is where runs start |
| `TraceStores.TraceStore.StartRequest` | crates/keycompute-db/src/lifecycle.rs:397-424 | a new request is received, open, pending and actual; one that exists, and every other, is not touched |
| `TraceStores.TraceStore.SetRoute` | crates/keycompute-db/src/lifecycle.rs:426-444 | routing never touches a finished request and never finishes one; a terminal status is refused on an open one |
| `TraceStores.TraceStore.FlushIntermediateUpdates` | crates/keycompute-db/src/lifecycle.rs:565-582 | a failed flush is always reported, and leaves the trace partial unless the request is unknown or the marking write fails, which is reported too |
| `TraceStores.TraceStore.MarkBillingFailed` | crates/keycompute-db/src/lifecycle.rs:861-866 | a failure is recorded only over pending billing and touches no other fact or request |
| `TraceStores.TraceStore.MaxAttemptNo` | crates/keycompute-db/src/lifecycle.rs:475-476 | computes the highest number of the request's attempts |
| `TraceStores.TraceStore.StartAttempt` | crates/keycompute-db/src/lifecycle.rs:446-509 | exactly when a start succeeds; a known lease returns its attempt and changes nothing, a new attempt is the one asked for, on its route, next in number, and sets its request running |
| `TraceStores.TraceStore.FinishAttemptAndRequest` | crates/keycompute-db/src/lifecycle.rs:584-796 | Ok exactly for a first decision or the same again; it writes status, error, end reason and time to the attempt, and to an open request also the outcome with its billing; the trace is partial after a failed flush, an earlier outcome of the request and every other row stay; an error changes nothing |
| `TraceStores.TraceStore.FinishRequestWithoutAttempt` | crates/keycompute-db/src/lifecycle.rs:798-852 | with others between its two statements: Ok means finished with that status; an open request is always finished by the call, with its error, time and billing, partial after a failed flush or if routed to an account and never attempted; a finished one answers by its status |
| `TraceStores.TraceStore.ReconcileStaleRequests` | crates/keycompute-db/src/lifecycle.rs:907-946 | the three statements keep the store reachable; requests and attempts tell by status, error and end reason how the node task ended that each statement saw, and agree where both saw the same; billing facts stay, stale pending billing follows the ledger, all else stays |
| `TraceStores.TraceStore.CloseStaleAttempts` | crates/keycompute-db/src/lifecycle.rs:913-925 | row by row equals the first statement; a closed attempt is done, failed or expired exactly as its node task was, else overdue, and carries an error exactly if it is not done |
| `TraceStores.TraceStore.TerminateStaleRequests` | crates/keycompute-db/src/lifecycle.rs:926-934 | row by row, in any order, equals the second statement; a terminated request failed exactly if its node task succeeded or failed, else it timed out |
| `TraceStores.TraceStore.DecideStaleBilling` | crates/keycompute-db/src/lifecycle.rs:888-904 | row by row, in any order, equals the third statement |
| `EndToEnd.EventKeepsInv` | crates/keycompute-db/src/lifecycle.rs:565-852 | every event of queue, callers and database keeps: a flush error that a committed call wrote down left the trace partial |
| `EndToEnd.LossReachesTheTrace` | crates/keycompute-db/src/lifecycle.rs:565-852 | over every run, once a write failed or an update was refused, the marker is set, or the trace is partial, or an erring flush has a call whose transaction has not got through |
| `EndToEnd.FinishAfterFailedWrite` | crates/keycompute-db/src/lifecycle.rs:584-796 | a failed write, a flush behind it and a committed attempt finish leave the trace partial, unless another call was told and has not written it down |
| `Recovery.RecoveryGate.constructor` | crates/keycompute-cache/src/recovery.rs:25-37 | a gate starts cold, at epoch zero, with the minimum delay |
| `Recovery.RecoveryGate.BeginProbe` | crates/keycompute-cache/src/recovery.rs:38-51 | refuses exactly while the gate is down and a caller holds an exclusive probe or the wait is not over, and otherwise hands out a probe of the current epoch |
| `Recovery.RecoveryGate.IsBlocked` | crates/keycompute-cache/src/recovery.rs:52-55 | true exactly when a probe would be refused |
| `Recovery.RecoveryGate.Succeeded` | crates/keycompute-cache/src/recovery.rs:65-80 | a held probe of the current epoch opens the gate, frees the probe slot and resets the delay; an older one changes nothing |
| `Recovery.RecoveryGate.Failed` | crates/keycompute-cache/src/recovery.rs:81-105 | a held probe of the current epoch always takes the gate down, starts a new epoch and backs off; an older one changes nothing |
| `Recovery.RecoveryGate.GetConnection` | crates/keycompute-cache/src/lib.rs:673-703 | with other callers at work during the checkout: a connection leaves the gate open unless somebody failed since, and a failed checkout makes every earlier probe stale |
| `Recovery.HeldProbe` | crates/keycompute-cache/src/recovery.rs:38-97 | over every run a probe in somebody's hands is stale and shared, or current in a gate that matches its kind |
| `Recovery.StepKeepsSingleFlight` | crates/keycompute-cache/src/recovery.rs:38-105 | every step keeps: probing exactly while one exclusive probe is out, of the current epoch, with the gate down; a current shared probe means ready |
| `Recovery.StepKeepsBackoff` | crates/keycompute-cache/src/recovery.rs:81-97 | every step keeps the delay at the backoff of the failures counted and the retry time above their sum |
| `Recovery.RunInvariants` | crates/keycompute-cache/src/recovery.rs:25-105 | both hold in every state of every run |
| `Recovery.LateSuccessNeverReopens` | crates/keycompute-cache/src/recovery.rs:74-78 | while the gate is down a success reopens it exactly if it is the current exclusive probe; any other changes nothing |
| `Recovery.OutlivedProbeIsIgnored` | crates/keycompute-cache/src/recovery.rs:65-97 | a shared probe that outlived a counted failure is ignored for ever, success or failure |
| `Recovery.EpochGrows` | crates/keycompute-cache/src/recovery.rs:92 | epochs never fall |
| `Recovery.BurstCountsOnce` | crates/keycompute-cache/src/recovery.rs:90-95 | any burst of failures from one ready epoch counts once |
| `Recovery.CountedFailuresHaveDistinctEpochs` | crates/keycompute-cache/src/recovery.rs:90-92 | over a run two counted failures come from different epochs |
| `Recovery.BackoffDoubles` | crates/keycompute-cache/src/recovery.rs:94 | doubling with a cap is the closed form min(minimum * 2^k, maximum) |
| `Recovery.DelayIsCappedExponential` | crates/keycompute-cache/src/recovery.rs:25-97 | after k counted failures the delay is min(minimum * 2^k, maximum), exactly unless nothing failed yet and the minimum exceeds the maximum |
| `Recovery.ExclusiveProbesAreSpaced` | crates/keycompute-cache/src/recovery.rs:38-97 | the j-th exclusive probe of an outage starts no earlier than the sum of the delays before it |
| `Recovery.GateReopensForProbing` | crates/keycompute-cache/src/recovery.rs:40-42 | once the larger delay has passed since the last failure, a caller is refused exactly while an exclusive probe is out |
| `DistributedLock.Server.TryAcquireWithRetry` | crates/keycompute-cache/src/lock.rs:111-153 | true means that the server holds this value with a full time to live, false that every try got through and another live lock stood at the last; a free lock is taken at the first try; errors come only from the network or a zero time to live |
| `DistributedLock.Server.ReleaseLock` | crates/keycompute-cache/src/lock.rs:163-189 | after Ok this value no longer holds the key, and no other live lock was touched |
| `DistributedLock.LockGuard.constructor` | crates/keycompute-cache/src/lock.rs:222-228 | a guard keeps its pool, key and value |
| `DistributedLock.LockGuard.Acquire` | crates/keycompute-cache/src/lock.rs:243-273 | without a pool no lock and no error; a guard means that the server records its value; a free lock is taken at once, a busy one was live, and errors come only from the network or a zero time to live |
| `DistributedLock.LockGuard.Release` | crates/keycompute-cache/src/lock.rs:279-297 | a failed release restores the guard, a successful one empties it; only its own lock can disappear |
| `DistributedLock.LockGuard.Drop` | crates/keycompute-cache/src/lock.rs:300-332 | dropping releases only its own lock, and leaves it to expire without a runtime |
| `DistributedLock.StepKeepsInv` | crates/keycompute-cache/src/lock.rs:111-332 | every step keeps: entries belong to the caller that wrote them until its deadline, and unexpired holders are recorded |
| `DistributedLock.RunInvariant` | crates/keycompute-cache/src/lock.rs:111-332 | so in every state of every run, with lost replies, retried releases and expiry |
| `DistributedLock.AtMostOneHolder` | crates/keycompute-cache/src/lock.rs:111-153 | at most one guard is the unexpired holder of a key, and the server records it |
| `DistributedLock.ReleaseDeletesOnlyItsOwn` | crates/keycompute-cache/src/lock.rs:64-70 | no release, first try or retry, deletes another guard's live lock |
| `DistributedLock.AcquireIffFree` | crates/keycompute-cache/src/lock.rs:122-139 | a waiting caller gets the lock exactly when no live entry stands at its key, and then nobody else holds it |
| `CacheKeys.BuildersAreInjective` | crates/keycompute-cache/src/lib.rs:223-230 | different keys never share an entry, a marker or a lock |
| `CacheKeys.EntryMeetsMarker` | crates/keycompute-cache/src/lib.rs:228-230 | an entry's name is another key's marker exactly when it ends in the marker suffix |
| `CacheKeys.EntryMeetsLock` | crates/keycompute-cache/src/lib.rs:530 | an entry's name is another key's lock exactly when it starts with the lock infix |
| `CacheFill.StepKeepsProvenance` | crates/keycompute-cache/src/lib.rs:490-625 | every step keeps: cached and carried values were cached at the start or produced by a fallback |
| `CacheFill.StepKeepsRecorded` | crates/keycompute-cache/src/lib.rs:549-573 | while no call outlives its lock, the server records every call that works under it |
| `CacheFill.StepKeepsSingleSuccess` | crates/keycompute-cache/src/lib.rs:549-625 | without faults, after one success under the lock the entry is or is being filled and no other fallback under the lock starts |
| `CacheFill.RunInvariants` | crates/keycompute-cache/src/lib.rs:490-625 | these hold in every state of every run |
| `CacheFill.ReturnedValuesHaveASource` | crates/keycompute-cache/src/lib.rs:490-625 | in every run, faults included, a returned value was cached at the start or produced by a fallback for the key |
| `CacheFill.LockedFallbacksNeverOverlap` | crates/keycompute-cache/src/lib.rs:569-616 | with computations shorter than the lock's time to live, fallbacks under the lock never overlap |
| `CacheFill.AtMostOneLockedSuccess` | crates/keycompute-cache/src/lib.rs:553-625 | with no cache error, no removal and no call cancelled between its success and the filling of the cache either, at most one of them succeeds |
| `CacheFill.StepFollowsProgram` | crates/keycompute-cache/src/lib.rs:490-625 | every step of a call in a run is a step of one program, determined by what the call sees |
| `CacheCourses.HolderComputesOnlyAfterMiss` | crates/keycompute-cache/src/lib.rs:549-573 | a call that takes the lock looks again; what it finds it returns without computing, and it computes, under the lock, only after a miss |
| `CacheCourses.WaiterComputesOnlyAfterAllPolls` | crates/keycompute-cache/src/lib.rs:574-597 | a call that finds the lock busy returns the entry of the first poll that finds one, and computes exactly if none of max_retries polls does |
| `CacheCourses.FreeLockCoversComputation` | crates/keycompute-cache/src/lib.rs:530-616 | where the lock is free, the call computes and fills the cache under the lock, and still holds it then unless its time to live ran out |
| `CacheServices.CacheService.constructor` | crates/keycompute-cache/src/lib.rs:200-207 | a service starts with its pool and prefix and an empty cache |
| `CacheServices.CacheService.Get` | crates/keycompute-cache/src/lib.rs:255-275 | the entry under the prefixed key; no connection reads as a miss |
| `CacheServices.CacheService.Set` | crates/keycompute-cache/src/lib.rs:311-329 | writes one entry and nothing else, or nothing without a connection |
| `CacheServices.CacheService.SetNull` | crates/keycompute-cache/src/lib.rs:633-648 | marks one key as missing and no other |
| `CacheServices.CacheService.Invalidate` | crates/keycompute-cache/src/lib.rs:651-668 | removes the entry and its marker together and no other entry |
| `CacheServices.CacheService.GetOrInsertWithLock` | crates/keycompute-cache/src/lib.rs:490-625 | the fallback alone decides once it ran, otherwise the value was cached; hits and marked keys touch no lock; a gated call touches neither lock nor cache; a computed value is cached and the lock does not outlive the call; the call follows the program of the runs, every look is at the cache as it was, a free lock is taken at once and kept to the end |
| `CacheServices.CacheService.PollEntry` | crates/keycompute-cache/src/lib.rs:581-595 | a contended caller polls until it finds the entry or all polls are spent, and returns only values that were in the cache |
| `CacheServices.CachedSuffixHidesKey` | crates/keycompute-cache/src/lib.rs:228-246 | caching a value under a key that ends in the marker suffix makes the rest of that key read as missing |
| `WeightedSelection.Stretch` | crates/keycompute-db/src/db_router.rs:438-444 | every roll below the total lies in the stretch of exactly one index |
| `WeightedSelection.SelectByRoll` | crates/keycompute-db/src/db_router.rs:436-445 | the subtracting walk chooses the replica whose stretch holds the roll; the default never decides |
| `WeightedSelection.SelectionIsProportional` | crates/keycompute-db/src/db_router.rs:429-447 | the number of rolls that select index k is its weight |
| `WeightedSelection.ReplicaIsChosenByItsWeight` | crates/keycompute-db/src/db_router.rs:429-447 | with distinct replicas, so is the number of rolls that select replica k |
| `Router.DbRouter.constructor` | crates/keycompute-db/src/db_router.rs:228-251 | a router starts with every breaker closed |
| `Router.DbRouter.MarkDown` | crates/keycompute-db/src/db_router.rs:420-425 | sets one slot to the end of the window from now; an unknown index changes nothing |
| `Router.DbRouter.RecoverIfExpired` | crates/keycompute-db/src/db_router.rs:291-298 | clears a slot only if its window is over at that moment |
| `Router.DbRouter.ProbeReads` | crates/keycompute-db/src/db_router.rs:274-304 | probes exactly the expired breakers; with others running, a replica that answered is clear or was marked again since, one that failed is marked |
| `Router.DbRouter.PickNextRead` | crates/keycompute-db/src/db_router.rs:309-356 | picks by strategy among exactly the replicas not excluded whose breaker is closed, in order: round robin by the counter, of which it takes one turn, weighted by a roll and never a zero weight unless all are; never one with any mark younger than the breaker window; none only if all others were within theirs |
| `Router.DbRouter.CollectHealthy` | crates/keycompute-db/src/db_router.rs:314-332 | collects in order and once exactly the replicas outside the exclusion and outside every window, by the clock read before the lock, and clears exactly their slots |
| `Router.DbRouter.SelectHealthy` | crates/keycompute-db/src/db_router.rs:338-353 | round robin by the wrapped counter, a drawn index, or by weight with a drawn roll and never a zero weight |
| `Router.FullTurnVisitsEveryReplica` | crates/keycompute-db/src/db_router.rs:338-343 | a full turn of undisturbed round-robin picks goes to each healthy replica exactly once, short of the wrap |
| `Turns.RoundRobinIsFairIff` | crates/keycompute-db/src/db_router.rs:338-343 | of n consecutive picks each position is chosen exactly once, exactly if the counter does not wrap among them or n divides its range |
| `Router.WrapRepeatsReplica` | crates/keycompute-db/src/db_router.rs:341-342 | three replicas at the wrap of the 64-bit counter: one is chosen twice, one not at all |
| `Router.DbRouter.ReadFrom` | crates/keycompute-db/src/db_router.rs:378-387 | a connection error marks the replica down at or after the call |
| `Router.DbRouter.TryHealthyReplicas` | crates/keycompute-db/src/db_router.rs:368-388 | phase one visits each replica at most once, each where the strategy sent it among those not visited, every mark made against it before its pick expired; refusals mark it since; running dry means that the rest were behind their breakers |
| `Router.DbRouter.RetryReplicas` | crates/keycompute-db/src/db_router.rs:390-409 | phase two walks the ring from the number tried, at most retry_attempts times |
| `Router.DbRouter.ReadFromReplicas` | crates/keycompute-db/src/db_router.rs:368-409 | both phases together |
| `Router.DbRouter.ExecuteReadRetry` | crates/keycompute-db/src/db_router.rs:359-418 | for every failure pattern and interference: at most reads + retries + 1 operations, only the last decides, a connection error surfaces only from the writer when fallback is on, and without it giving up means that every replica refused or was behind its breaker |
| `CteScan.CteMainStmtIsWrite` | crates/keycompute-db/src/db_router.rs:609-632 | true exactly when a write keyword and a space start at parenthesis depth zero |
| `CteScan.ScanCharacter` | crates/keycompute-db/src/db_router.rs:618-627 | one character finds a write exactly at a keyword of depth zero, and otherwise moves the depth |
| `CteScan.ScanFindsWrites` | crates/keycompute-db/src/db_router.rs:617-629 | the recursive scan from any depth finds exactly the positions at depth zero |
| `CteScan.ScanSkipsGroup` | crates/keycompute-db/src/db_router.rs:620-621 | scanning a balanced group and its closing parenthesis is scanning what follows |
| `CteScan.GroupContentsNeverMatter` | crates/keycompute-db/src/db_router.rs:609-632 | replacing the contents of any matched group by any balanced text never changes the answer |
| `CteScan.ScanAnswersBySuffix` | crates/keycompute-db/src/db_router.rs:617-629 | from any depth, the scan finds something exactly if a word of the tokenized text, at depth zero and before a space, ends in a write keyword |
| `CteScan.AnswerIsBySuffix` | crates/keycompute-db/src/db_router.rs:609-632 | so the answer for a statement is yes exactly then, and no keyword that is a word of its own is missed |
| `CteScan.WordScanFindsWords` | crates/keycompute-db/src/db_router.rs:617-629 | the same scan with a check for the beginning of a word finds exactly the words that are keywords |
| `CteScan.NestedWriteIsInvisible` | crates/keycompute-db/src/db_router.rs:609-632 | for every named subquery, a write inside it is never seen: the answer is that of the main statement |
| `CteScan.UpdateReturningCountsAsRead` | crates/keycompute-db/src/db_router.rs:992-999 | the known limitation: a statement that updates in its subquery and selects from it counts as a read |
| `CteScan.KeywordAnywhereCounts` | crates/keycompute-db/src/db_router.rs:617-629 | whatever text that ends at depth zero stands before it, a keyword and its space count |
| `CteScan.ColumnNameLooksLikeWrite` | crates/keycompute-db/src/db_router.rs:617-629 | a read of a column named LAST_UPDATE that has no write word and still counts as a write |
| `CteScan.LiteralLooksLikeWrite` | crates/keycompute-db/src/db_router.rs:617-629 | a read whose string literal begins with a keyword counts as a write |
| `Migrations.DecisionMeaning` | crates/keycompute-db/src/migrations.rs:85-139 | a runner goes on exactly from a checksum-matching prefix (and no orphan tables), applies the very next migration, and is complete exactly when none is left |
| `Migrations.RejectionMeaning` | crates/keycompute-db/src/migrations.rs:93-127 | a history is rejected with an error exactly if the error names the first thing wrong with it: orphan tables, the first gap with expected and found version, else the first unknown or altered migration |
| `Migrations.GapFree` | crates/keycompute-db/src/migrations.rs:100-108 | the first pass accepts exactly the histories numbered 1..n |
| `Migrations.ForeignFree` | crates/keycompute-db/src/migrations.rs:110-127 | the second pass accepts exactly the known versions with matching checksums |
| `Migrations.MissingAfterPrefix` | crates/keycompute-db/src/migrations.rs:129-132 | the first missing migration is the one after the prefix |
| `Migrations.SchemaDatabase.Inspect` | crates/keycompute-db/src/migrations.rs:85-139 | the three passes compute the decision |
| `Migrations.SchemaDatabase.RunMigrationStep` | crates/keycompute-db/src/migrations.rs:76-158 | Ok exactly for a sound history and an acknowledged commit; then the next migration took effect with its version, name and checksum recorded; an error changes nothing, unless only the acknowledgement was lost and the step took effect whole; it is the database's, or names the first thing wrong with the history |
| `Migrations.SchemaDatabase.RunMigrations` | crates/keycompute-db/src/migrations.rs:35-69 | the loop ends whatever the others do; Ok means that the whole list took effect once and in order, an error a foreign history, which it names, or a transaction that failed or seemed to |
| `Migrations.PrefixGrows` | crates/keycompute-db/src/migrations.rs:142-158 | the inserted row comes last and extends the matching prefix |
| `Migrations.EventKeepsInv` | crates/keycompute-db/src/migrations.rs:35-158 | every event keeps the history in order and what the lock holder read or staged current |
| `Migrations.EveryRunIsOrdered` | crates/keycompute-db/src/migrations.rs:35-158 | for any number of runners and any rollbacks each migration takes effect exactly once in version order, and a runner that returned Ok saw a complete history |
| `Migrations.NoRunnerRejectsHistory` | crates/keycompute-db/src/migrations.rs:93-127 | from a sound database no runner ever rejects what it reads |
| `Migrations.ForeignDatabaseIsNeverTouched` | crates/keycompute-db/src/migrations.rs:93-127 | from any other database no runner succeeds and nothing is written |
| `Money.RoundingIsNearestEven` | crates/keycompute-billing/src/calculator.rs:68-71 | rounding gives n exactly when n is nearest, and even on a tie |
| `Money.Round10Error` | crates/keycompute-billing/src/calculator.rs:68-71 | a rounded amount is within half a unit |
| `Money.Round10IsAligned` | crates/keycompute-billing/src/calculator.rs:68-73 | rounding reaches the ten-decimal grid and changes nothing on it |
| `Money.PriceIsPerThousand` | crates/keycompute-billing/src/calculator.rs:66-71 | the exact price is that of a thousand tokens and additive in tokens |
| `Money.BreakdownIsDue` | crates/keycompute-billing/src/calculator.rs:60-74 | each line is its own exact price to the nearest unit, ties to even, and the total is their sum |
| `Money.ChargeWithinOneUnit` | crates/keycompute-billing/src/calculator.rs:62-74 | for all tokens and prices the charge is on the grid and within one unit of the exact price |
| `Money.ChargeBoundIsTight` | crates/keycompute-billing/src/calculator.rs:62-74 | the bound is attained |
| `Money.ChargeIsMonotone` | crates/keycompute-billing/src/calculator.rs:22-74 | the charge is monotone in tokens and prices and never negative |
| `Money.LedgerDrift` | crates/keycompute-billing/src/calculator.rs:62-74 | over a whole ledger the drift is at most one unit per request |
| `Money.SharesAreDue` | crates/keycompute-distribution/src/calculator.rs:52-82 | one share, or two exactly with a second beneficiary; each goes to the beneficiary of its level at its rate, and is that part of the bill to the nearest unit, ties to even |
| `Money.EveryUserIsPaidTheirRates` | crates/keycompute-distribution/src/calculator.rs:52-82 | every user is paid what the rates of their levels come to, within half a unit a level, and nothing without one |
| `Money.TotalOfTwo` | crates/keycompute-distribution/src/calculator.rs:52-89 | the total is the sum of the one or two rounded shares |
| `Money.TwoPartsOvershoot` | crates/keycompute-distribution/src/calculator.rs:62-72 | rounded parts pass a whole number exactly when the exact ones do by more than a unit, or in the last unit by how they round |
| `Money.SharesAgainstBill` | crates/keycompute-distribution/src/calculator.rs:52-89 | for stored bills and all rates from zero to one, exactly when the shares exceed the bill: never a single one, below one in sum never, at one on a double tie and by one unit, above one beyond a unit of excess always |
| `Money.SharesWithinOneUnit` | crates/keycompute-distribution/src/calculator.rs:52-89 | for every bill and ratios up to one in sum, shares are at most one unit over |
| `Money.SharesNeverExceedBill` | crates/keycompute-distribution/src/calculator.rs:84-89 | ratios below one in sum never pay out more than a stored bill |
| `Money.HalfRatiosNeverExceedBill` | crates/keycompute-distribution/src/calculator.rs:84-89 | ratios up to one half in sum never pay out more than any bill |
| `Money.EvenSplitOverpays` | crates/keycompute-distribution/src/calculator.rs:52-89 | a bill of three units split in halves pays out four |
| `Money.DoubleTieIff` | crates/keycompute-distribution/src/calculator.rs:62-72 | for four-decimal rates that sum to one, exactly which bills are double ties |
| `Money.TieNeedsOddEight` | crates/keycompute-distribution/src/calculator.rs:62-72 | a bill is a double tie only if the rate is an odd multiple of eight ten-thousandths |
| `Money.OddEightTies` | crates/keycompute-distribution/src/calculator.rs:62-72 | and every such rate has one, of 625 or 1875 units |
| `Money.PairNeverOverpaysIff` | crates/keycompute-distribution/src/calculator.rs:52-89 | two four-decimal rates never overpay any bill exactly when they sum to less than one, or to one and the first is no odd multiple of 0.0008 |
| `Billing.TokensFitIff` | crates/keycompute-billing/src/usage_log.rs:114-130 | the four range checks accept exactly the totals that fit the ledger column; at most one part is too large by itself, and the error names it |
| `Billing.FindFirst` | crates/keycompute-billing/src/usage_log.rs:615-623 | the first match, or none if there is none |
| `Billing.FindLast` | crates/keycompute-billing/src/usage_log.rs:643-648 | the last match, or none if there is none |
| `Billing.GlobalRatesAreTopAndBottom` | crates/keycompute-billing/src/usage_log.rs:604-651 | without own rules the levels get the top and the bottom global rule, and a single one is never paid twice |
| `Billing.OwnRuleWins` | crates/keycompute-billing/src/usage_log.rs:618-637 | the first rule of one's own beats every global rule at both levels |
| `Billing.DefaultsApply` | crates/keycompute-billing/src/usage_log.rs:615-651 | where no rule applies each level comes to its own default |
| `Billing.UnreadableOwnRule` | crates/keycompute-billing/src/usage_log.rs:618-651 | an own rule whose rate does not convert sends the first level to its default and the second on to the bottom global rule |
| `Billing.SettlementPaysEachLevel` | crates/keycompute-billing/src/usage_log.rs:615-660 | from rules to shares, each level is paid at the rate chosen for it, to its beneficiary, within half a unit |
| `Billing.SettlementOverpaysIff` | crates/keycompute-billing/src/usage_log.rs:653-660 | from tokens, prices and rules to shares, exactly when a settlement pays out more than it charged, and never for a safe pair of rates |
| `Billing.RatesAreListed` | crates/keycompute-billing/src/usage_log.rs:615-651 | the rates of all users are those of the finitely many the rules name, and of one they do not |
| `Billing.RulesNeverOverpayIff` | crates/keycompute-billing/src/usage_log.rs:615-660 | a rule list with its defaults never overpays any bill, whoever the beneficiaries, exactly when all pairs of rates it can come to are safe |
| `Billing.EveryBillIsCharged` | crates/keycompute-billing/src/calculator.rs:62-74 | every whole number of units is some charge, so none of those bills is hypothetical |
| `Billing.TwoFullRatesPayDouble` | crates/keycompute-billing/src/usage_log.rs:615-660 | two rules of a full rate pay out twice the bill |
| `Billing.SmallRatesFit` | crates/keycompute-billing/src/usage_log.rs:588-602 | rates and defaults below one half always fit |

## Left out

- Recovery.RecoveryGate.Failed: epochs are unbounded here; the source's 64-bit counter wraps.
- CteScan.CteMainStmtIsWrite: the nesting depth is unbounded; the source's 32-bit counter would overflow on four billion open parentheses.
- Money.ChargeWithinOneUnit: amounts are exact reals; the 96-bit mantissa of the decimal type, and the rounding of a quotient or product that does not fit it, are not modelled.
- CacheServices.CacheService.GetOrInsertWithLock: the deadline on lock acquisition appears only as an acquisition error; serialization and expiry of entries are not modelled, except that others may drop any entry at any time.
- CacheKeys.EntryMeetsLock: locks have a store of their own in the model, so that collision is stated of the names only.
- Billing.RulesNeverOverpayIff: whether the two beneficiaries of a referral can be the same user is not modelled; all pairs are covered.
- Columns of the trace rows that no guard reads (models, nodes, first-content times, error summaries) and the constraints on them, which can only roll a transaction back.
- How node tasks and the billing ledger come about: they are inputs to reconciliation and billing.
- The contents of intermediate updates: an update is written or fails.
- `get_or_insert` without a lock, `get_with_ttl` and counters of the cache: no interaction beyond single commands.
- `is_locking_select`, `is_connection_error` and the choice between reader and writer by statement text: plain substring predicates.
- Balance reservation and settlement, and distribution records: they delegate to database models whose statements are not part of this model.
- Authentication, configuration and admission: finite range checks and calls into cryptographic and database libraries, with no protocol between their calls.
- Observability, scripts and desktop views: they read and report, and no promise above depends on them.
