# Dhara in Dafny

Dhara is a task queue kept in three PostgreSQL tables. Everything it promises lives in a handful of
row transitions, issued concurrently by workers, their heartbeats, reapers and clients. This project
models those transitions and proves what holds over whole runs of them, together with three pieces
the queue and its public playground rest on: the canonical JSON form behind idempotent inserts, the
token-bucket rate limiter, and the capacity gate.

`dafny verify dfyconfig.toml` checks everything.

## How the model is laid out

- `Tables` holds the tables as one value (`Db`) and one function per store transaction. `TaskStore.Store`
  is the store as an object that updates its tables in place; each method is proved against the
  function of its transaction and keeps the table invariant `DbOk` of `StoreInvariants`.
- `Effects` says what each transaction does, column by column and counter by counter, and that this
  decides the state it leaves; `Endings` follows outcomes, cancels and inserts through later runs.
- `Protocol` is the concurrent system: any number of worker slots, each idle or holding the in-memory
  snapshot of its claim, any number of reapers and clients, and a clock that only moves forward. A step
  is one committed transaction, a crash, or a tick. A transaction's own timestamp may lag the clock.
  A late heartbeat of an old claim is allowed at any time. `claims` and `lease` only record history.
- `Fencing`, `Overrun`, `SharedIds`, `WorkerPool`, `AuditLog`, `Idempotency`, `Termination`, `Claims`,
  `Reaper` and `LeaseTiming` prove properties of every run of that system.
- `Json` with `CanonicalShape`, `RateLimit` with `LimiterLaw`, `Worker` and `CapacityGate` model the remaining components.

Three families of properties turn out to hold only under a condition, and each is proved as an
equivalence with a condition a caller can check, next to runs that break it:

- Fencing, the retry decisions, the handling of outcomes that arrive after a reap, the attempt budget
  and the plain bound on status changes hold over all runs exactly when worker ids are pairwise
  distinct, that is, exactly when the pools sharing a database have pairwise distinct prefixes after
  normalizing. With two processes left on the default prefix, or an empty prefix next to the default
  spelled out, a worker can complete or requeue an execution of its namesake and drive a task past its
  budget. In general the budget is overrun by at most one attempt per worker beyond the first of its
  id, and that bound is reached.
- The limiter's garbage collection is invisible, its rate bound holds, the law of which calls it
  allows holds, and its keys do not affect each other, exactly when `burst <= rate * gcWindow`; for
  `NewRateLimiter`, when `burst <= 10 * perMinute`.
- The capacity gate covers a `RetryOwned` call only if its first read saw DEAD. The cap holds
  throughout a run exactly when every other retry in it finds its task not DEAD or room left.

Where the code and its documentation disagree the model follows the code: only PENDING rows can be
canceled (`internal/store/task_store.go:249-250`), although the lifecycle diagram also draws an edge
from RUNNING (`README.md:35`).

Assumptions stated in the contracts: the digest is injective wherever replay is decided by it, row ids
are fresh, and `rand.Float64` draws from `[0, 1)`.

## Model

| member | source | states |
|---|---|---|
| Fencing.ReachableWithinBudget | internal/worker/worker.go:194-222 | With distinct worker ids, in every reachable state: a row locked by a worker that still executes a claim of it is under that very claim, with the same attempts and budget; attempts never exceed max(1, max_retries); a PENDING row has attempts 0 or below max_retries |
| Fencing.StaleDecisionIsCurrent | internal/worker/worker.go:194-212 | In every reachable state with distinct ids, a failure that is recorded leaves the row DEAD or requeued exactly as the row's current attempts and budget require, though only the snapshot was consulted |
| Fencing.ReapedOutcomeIsIgnored | internal/worker/worker.go:101-222 | With distinct worker ids, after a reap takes a claim away, whatever run follows, an outcome its worker writes for that claim changes no table and no counter, even if the task was re-claimed |
| Fencing.StepKeepsBudget | internal/store/task_store.go:405-425 | The budget survives every step although the retry write never checks it, because fencing makes the snapshot current |
| Overrun.OverrunBounded | internal/worker/worker.go:194-212 | Whatever the worker ids, in every reachable state attempts exceed max(1, max_retries) by at most the number of workers beyond one per id |
| Overrun.OvershootBounded | internal/worker/worker.go:194-212 | While no task id is used twice, only rows with max_retries of at least two exceed max(1, max_retries) at all, by at most that number of spare workers |
| SharedIds.OverrunReached | internal/store/task_store.go:412-425 | For any non-empty list of worker ids and any max_retries of at least two, some run reaches exactly that bound |
| SharedIds.BudgetIffDistinctIds | internal/worker/worker.go:199-205 | The budget holds in all reachable states if and only if worker ids are pairwise distinct |
| SharedIds.FencedIffDistinctIds | internal/store/task_store.go:341-425 | In all reachable states a row locked under the id of a worker that executes a claim of it is under that claim, if and only if worker ids are pairwise distinct |
| SharedIds.DecisionsIffDistinctIds | internal/worker/worker.go:194-212 | Every recorded failure leaves the row DEAD or requeued as its current attempts require, in all reachable states, if and only if worker ids are pairwise distinct |
| SharedIds.LateOutcomesIffDistinctIds | internal/worker/worker.go:101-222 | Over all runs, every outcome a worker writes for a claim after a reap took it changes no table and no counter, if and only if worker ids are pairwise distinct |
| WorkerPool.WorkerIdInjective | internal/worker/worker_pool.go:73 | Two generated ids are equal only for the same prefix and number |
| WorkerPool.Settings.Normalize | internal/worker/worker_pool.go:142-173 | The settings end as the normalized ones and are usable |
| WorkerPool.NormalizedIff | internal/worker/worker_pool.go:142-173 | Normalized settings are usable, normalizing twice is normalizing once, and exactly usable settings are left alone |
| WorkerPool.SetFieldsAreKept | internal/worker/worker_pool.go:142-173 | A setting that is set is kept, except a base backoff above the cap |
| WorkerPool.UnsetFieldsAreDefault | internal/worker/worker_pool.go:142-173 | A setting that is not set gets its own default, whatever else is set |
| WorkerPool.Pool.Start | internal/worker/worker_pool.go:57-92 | The first start launches workers numbered 1 to concurrency and one reaper; a second start does nothing |
| WorkerPool.FleetDistinctIff | internal/worker/worker_pool.go:72-79 | The workers of all pools, started from any settings, have distinct ids if and only if the pools have distinct prefixes after normalizing |
| WorkerPool.FleetBudgetIff | internal/worker/worker_pool.go:72-79 | The attempt budget holds over all runs of a fleet, whatever its settings, if and only if no two pools share a prefix after normalizing |
| WorkerPool.FleetFencedIff | internal/worker/worker_pool.go:72-79 | Likewise fencing, retry decisions and ignored late outcomes hold over all runs of a fleet if and only if no two pools share a prefix after normalizing |
| WorkerPool.UnsetPrefixMeetsDefault | worker.go:51-55 | A pool with an empty prefix and one configured with `dhara-worker` break the budget although their configured prefixes differ |
| AuditLog.ReplayMeaning | internal/store/task_store.go:731-738 | Replaying a log succeeds exactly on logs whose consecutive entries are legal edges, ends in the last status, and counts RUNNING entries since the last PENDING that directly follows DEAD |
| AuditLog.ReachableHistory | internal/store/task_store.go:241-561 | In every reachable state each task's log is legal, ends in its status, accounts for its attempts, and has a PENDING entry between any two RUNNING ones |
| AuditLog.ReachableReferences | internal/store/task_store.go:482-492 | In every reachable state a DEAD task has exactly one dead letter carrying its last error, other tasks have none, and no log or letter refers to a missing task |
| StoreInvariants.RetainExact | internal/playground/store.go:227-249 | Retention removes a task, its log and its letters exactly when it is older than the cutoff and not RUNNING; everything else is untouched |
| StoreInvariants.MoveKeeps | internal/store/task_store.go:291-561 | Any legal one-row move with its log entry and letters keeps column shapes, log replay, letters, references and key uniqueness |
| StoreInvariants.InsertHit | internal/store/task_store.go:123-136 | An insert that hits an existing (type, key) changes nothing and answers by comparing payload hashes |
| Effects.InsertIs | internal/store/task_store.go:98-140 | An insert answers with a new task if and only if no row holds its (type, key); then every column of the new row is as asked for, PENDING with no attempts, one enqueued counted, and this decides the tables; otherwise nothing changes, and a replayed task holds the pair under the same hash |
| Effects.ClaimIs | internal/store/task_store.go:298-337 | Column by column: a claim is exactly RUNNING, the worker's lock and start time, one more attempt, one log entry RUNNING, and nothing else |
| Effects.CompleteIs | internal/store/task_store.go:363-403 | Column by column: an owned completion is exactly COMPLETED with its time, unlocked, attempts kept, one log entry, no letter, `completed` counted; not owned, nothing |
| Effects.PendingIs | internal/store/task_store.go:405-451 | Column by column: an owned retry is exactly PENDING at its run time with its error, unlocked, attempts kept, one log entry, `failures` and `retried` counted; not owned, nothing |
| Effects.DeadIs | internal/store/task_store.go:453-501 | Column by column: an owned death is exactly DEAD with its error, unlocked, one log entry, one letter, `failures` and `dead` counted; not owned, nothing |
| Effects.CancelIs | internal/store/task_store.go:241-289 | Column by column: a cancel of a PENDING row is exactly CANCELED, one log entry, `canceled` counted, every other column kept; of any other row, nothing |
| Effects.RetryDeadIs | internal/store/task_store.go:503-561 | Column by column: a revival of a DEAD row is exactly PENDING and due at once with no attempts, start, error or letter; of any other row, nothing |
| Effects.HeartbeatIs | internal/store/task_store.go:341-361 | Column by column: an owned heartbeat moves the lease time and the update time and nothing else; not owned, nothing |
| Effects.ReapOneIs | internal/store/task_store.go:573-674 | Column by column: a reaped row waits, due at once, while attempts remain, and is otherwise dead with a letter; only `reaped` is counted |
| Endings.OutcomeIs | internal/worker/worker.go:101-222 | Recording an outcome completes on success, kills on a missing handler, and requeues or kills on failure by the snapshot, each as above; without ownership nothing changes |
| Endings.SuccessLasts | internal/worker/worker.go:136-147 | A success recorded by an owner leaves the task COMPLETED at that time with its attempts and no letter, over every run until retention takes it |
| Endings.MissingHandlerKills | internal/worker/worker.go:101-123 | A missing handler leaves the task DEAD with that error and one letter, over every run until a manual retry or retention |
| Endings.CancelLasts | internal/store/task_store.go:241-289 | A canceled task stays CANCELED and is not claimed, over every run until retention takes it |
| Endings.InsertThenReplay | internal/store/task_store.go:98-140 | Over every run after an insert of a (type, key) was answered with a new task, until retention takes it, each insert of the pair changes nothing and answers with that task or, for another payload, a conflict |
| Protocol.ReachableOk | internal/store/task_store.go:291-682 | The table invariant, lease bookkeeping and conservation hold in every reachable state, whatever the worker ids |
| Protocol.ReachableConserved | internal/store/task_store.go:401-499 | Claims equal completed + retried + dead + reaped counters plus rows now RUNNING; attempt failures equal retried + dead |
| Protocol.ReachableRow | internal/store/task_store.go:298-315 | Lock columns are set exactly on RUNNING rows, completed_at exactly on COMPLETED, started_at exactly with attempts > 0, a PENDING row has an error exactly with attempts > 0, a lease time is the last update |
| Termination.StepDecreases | internal/store/task_store.go:291-501 | Without inserts and manual retries each step pays one unit of the measure per status it changes, whatever the worker ids |
| Termination.ChangesAreBounded | internal/worker/worker.go:194-222 | Whatever the worker ids, any such run from a reachable state changes at most 2 · Σ (max(1, max_retries) + workers beyond one per id) statuses |
| Termination.ChangesReached | internal/worker/worker.go:194-222 | For any non-empty list of worker ids and any max_retries of at least two, some such run changes exactly that many |
| Termination.BudgetBoundsChangesIff | internal/worker/worker.go:194-222 | All such runs change at most 2 · Σ max(1, max_retries) statuses if and only if worker ids are pairwise distinct |
| Termination.CanAlwaysDrain | internal/worker/worker.go:39-84 | From every reachable state of any non-empty fleet, steps of one worker and the reaper alone can reach a state where every task is COMPLETED, CANCELED or DEAD |
| Claims.DrainsIffSorted | internal/store/task_store.go:307-324 | Repeated uncontended claims at one time return exactly the listings of all ready tasks, each once, with priorities never rising and, within one priority, run times never falling, and then none |
| Claims.EnqueuedIsClaimable | internal/store/task_store.go:412-425 | After an insert, a recorded failure, a reap or a revival, over every run: until a due claim, a cancel or its retention takes the task no step claims it, its row is unchanged, and an idle worker can claim it at exactly the times from its run time on |
| Claims.WaitsUntilDue | internal/store/task_store.go:307-312 | Over any run without a due claim, its cancel or its retention, a PENDING row stays exactly as it is and is not claimed |
| Claims.LockStepKeeps | internal/store/task_store.go:291-312 | With claims split into lock and commit, every open claim can still commit and no two hold the same row |
| Claims.LocksRefine | internal/store/task_store.go:291-339 | Every run with open, committed and rolled-back claim transactions has the same committed state as a run of atomic steps |
| Claims.LocksReachable | internal/store/task_store.go:291-339 | Hence every property of reachable states also holds while claims are split |
| Claims.ClaimsAreExclusive | internal/store/task_store.go:291-339 | In any run with split claims, between two commits of one task some step returned it to PENDING or removed it |
| Reaper.BulkIsEach | internal/store/task_store.go:573-622 | The bulk statement leaves exactly the state of the one-row rule applied along its own listing |
| Reaper.ReapOrderIrrelevant | internal/store/task_store.go:573-674 | Two orders over the same rows give equal rows, counters, per-task logs and per-task letters |
| Reaper.BulkMatchesAnyOrder | internal/store/task_store.go:566-682 | However the two statements list the rows their WHERE conditions match, one run equals the one-row rule over all stale unlocked rows in any order; DEAD and PENDING outcomes partition those rows and the count is their number |
| Reaper.ReapedTask | internal/store/task_store.go:573-674 | What a pass leaves of each task in columns, log and letters: waiting and due at once, or dead with a letter, or untouched |
| LeaseTiming.NeverStaleIff | internal/worker/worker.go:163-192 | With on-time ticks a lease never looks stale if and only if every stretch of failed heartbeats is shorter than ⌊threshold / interval⌋ |
| LeaseTiming.AlwaysKeptIff | internal/worker/worker.go:163-192 | Over every run with on-time ticks, with any other heartbeats that have no effect and reapers on the threshold or a larger one, a claim stays in force until its own outcome if and only if every stretch of failed heartbeats is shorter than ⌊threshold / interval⌋ |
| LeaseTiming.DefaultsKeepIff | internal/worker/worker_pool.go:152-159 | With both settings left at their defaults that is so if and only if no ten heartbeats in a row fail |
| LeaseTiming.AbandonedIsLeftAlone | internal/worker/reaper.go:52-75 | Over every run without a further heartbeat under its worker id, no reaper tick up to the threshold lists the task while the claim is in force |
| LeaseTiming.AbandonedIsReaped | internal/worker/reaper.go:52-75 | Over every run without a further heartbeat under its worker id, the claim is over, for good, from the first reaper tick past the threshold on, at most one interval later |
| Idempotency.RunKeepsRow | internal/store/task_store.go:241-561 | Until retention takes it a row keeps type, key, payload, hash, priority, budget and creation time; COMPLETED and CANCELED rows keep every column |
| Idempotency.RecentSurvives | internal/playground/store.go:227-249 | A row is still there after any run whose retention cutoffs are not past its creation time |
| Idempotency.InsertIsIdempotent | internal/store/task_store.go:98-140 | Keys stay unique, and until retention takes the holder every insert of a held (type, key) changes no table and returns the holder if the payload decodes to the same value, else a conflict |
| TaskStore.Store.Insert | internal/store/task_store.go:98-140 | A payload that does not parse changes nothing; otherwise the tables and the answer are those of the insert transaction under the digest of the canonical payload, and a new row has every column as asked for |
| TaskStore.Store.Claim | internal/store/task_store.go:291-339 | None available leaves the tables alone and means every ready row is locked; otherwise the claimed row is ready, no unlocked ready row has a greater priority or the same priority and an earlier run time, and its new attempt count is returned |
| TaskStore.Store.Heartbeat | internal/store/task_store.go:341-361 | Refreshes the lease exactly when the worker owns the row, else reports ownership lost |
| TaskStore.Store.MarkCompleted | internal/store/task_store.go:363-403 | Completes, logs and counts exactly when the worker owns the row |
| TaskStore.Store.MarkPending | internal/store/task_store.go:405-451 | Requeues at the given time, logs and counts exactly when the worker owns the row |
| TaskStore.Store.MarkDead | internal/store/task_store.go:453-501 | Kills, writes the dead letter, logs and counts exactly when the worker owns the row |
| TaskStore.Store.Cancel | internal/store/task_store.go:241-289 | Makes a PENDING row CANCELED, logged and counted, every other column kept; any other row is returned as it is; a missing one is reported |
| TaskStore.Store.RetryDead | internal/store/task_store.go:503-561 | Revives a DEAD row with a fresh budget and drops its letter; tells a missing row from one that is not DEAD |
| TaskStore.Store.RequeueStaleRunning | internal/store/task_store.go:566-682 | Takes exactly the RUNNING rows last refreshed before the threshold that nobody else has locked, each by the one-row rule, and returns their number |
| TaskStore.Store.DeleteOlderThan | internal/playground/store.go:227-249 | Keeps exactly the rows that are RUNNING or not older than the cutoff, deletes the others with their letters and logs, and returns how many |
| Worker.Worker.HandleFailure | internal/worker/worker.go:194-222 | Dies or retries by the snapshot; a retry is due after the draw's share of min(cap, base · 2^(attempts-1)) |
| Worker.Worker.Execute | internal/worker/worker.go:101-147 | Under ownership a success leaves the row COMPLETED, a missing handler DEAD with its letter, a failure requeued or DEAD, each with exactly its columns, log, letters and counters; without ownership nothing changes |
| Worker.CeilingGrows | internal/worker/worker.go:242-251 | Delay ceilings never fall from one attempt to the next |
| Worker.Ceiling | internal/worker/worker.go:242-251 | A ceiling lies between the base and the cap and never exceeds the doubled base |
| Worker.CeilingIs | internal/worker/worker.go:242-251 | The ceiling is min(cap, base · 2^(attempts-1)) |
| Worker.BackoffIs | internal/worker/worker.go:242-251 | The delay is the draw times the base doubled once per earlier attempt, or times the cap if that is less |
| Worker.BudgetDelay | internal/worker/worker.go:194-212 | The delays over n attempts sum to at most (n-1) · cap and at most base · (2^(n-1) - 1) |
| Json.CharsRoundTrip | internal/store/hash_utils.go:45-46 | Reading an escaped string literal gives back the string and the bytes after it |
| Json.RoundTrip | internal/store/hash_utils.go:30-70 | An independent reader recovers every value from its canonical bytes and leaves what follows |
| Json.CanonicalIff | internal/store/hash_utils.go:20-70 | Canonical bytes are equal if and only if the decoded values are equal |
| CanonicalShape.MembersInByteOrder | internal/store/hash_utils.go:32-54 | Reading the names off canonical bytes gives each key of the object once, in byte order |
| CanonicalShape.Spelling | internal/store/hash_utils.go:45-46 | Each character of a string has one spelling: itself, a two-character escape, or `\u` with four lower-case digits |
| CanonicalShape.LiteralsAreSafe | internal/store/hash_utils.go:45-46 | No string puts a control character, a markup character or a line separator into the bytes |
| Json.AscendingUnique | internal/store/hash_utils.go:34-38 | Two ascending listings of the same keys are the same listing |
| Json.RangeKeys | internal/store/hash_utils.go:34-37 | Ranging over a map yields each key once, in some order |
| Json.Canonicalize | internal/store/hash_utils.go:30-70 | The buffer-writing printer produces the canonical form whatever order the map yields its keys |
| Json.HashPayload | internal/store/hash_utils.go:10-18 | The hash is the digest of the canonical form |
| Json.HashIff | internal/store/hash_utils.go:10-18 | Under an injective digest, hashes agree if and only if the decoded values do |
| RateLimit.TokensInRange | internal/playground/ratelimit.go:58-77 | Under a forward clock every bucket's tokens stay within 0 and the burst |
| RateLimit.SameReply | internal/playground/ratelimit.go:45-94 | When a bucket refills within the window, each call is answered as by a limiter that never deletes buckets |
| RateLimit.GcInvisibleIff | internal/playground/ratelimit.go:80-94 | Collection is invisible over all call sequences if and only if burst <= rate · window |
| RateLimit.RateBoundedIff | internal/playground/ratelimit.go:45-78 | Every stretch of calls gives a key at most burst + rate · elapsed if and only if burst <= rate · window |
| RateLimit.KeptWithinRate | internal/playground/ratelimit.go:52-78 | Without collection that bound holds unconditionally |
| LimiterLaw.KeptLaw | internal/playground/ratelimit.go:52-78 | Without collection a call is allowed if and only if for every earlier call of the key the calls allowed since, and this one, are at most burst + rate · elapsed |
| LimiterLaw.ExactIff | internal/playground/ratelimit.go:45-94 | With collection that law holds for all call sequences if and only if burst <= rate · window |
| LimiterLaw.HintIsExact | internal/playground/ratelimit.go:68-75 | After a denial the key's next call is allowed if it comes after the hinted wait, and denied if it comes before a hint above its one-second floor |
| LimiterLaw.NewLimiterAllows | internal/playground/ratelimit.go:27-41 | The law for a new limiter, with its rate as a sixtieth of the per-minute limit a second |
| RateLimit.KeysIndependentIff | internal/playground/ratelimit.go:45-94 | Every call of every sequence is answered as if only the calls for its own key had been made, if and only if burst <= rate · window |
| RateLimit.NewConfigIff | internal/playground/ratelimit.go:27-41 | A new limiter hides its collections, keeps its rate and keeps its keys apart if and only if its burst is at most ten minutes of its rate |
| RateLimit.RateLimiter.Allow | internal/playground/ratelimit.go:45-78 | State and answer are those of one collect, refill and spend |
| RateLimit.RateLimiter.GcLocked | internal/playground/ratelimit.go:80-94 | Deletes exactly the buckets idle for longer than the window, at most once per window |
| CapacityGate.DepthIs | internal/playground/service.go:450-460 | The depth is the number of PENDING rows plus the number of RUNNING rows |
| CapacityGate.BackgroundKeepsDepth | internal/playground/service.go:450-460 | No worker, reaper, cancel or retention step makes pending + running larger |
| CapacityGate.CapIff | internal/playground/service.go:285-460 | In any run from within the cap, interleaved with any background steps, pending + running is within the cap in every state if and only if no unchecked retry finds its task DEAD and the queue full |
| CapacityGate.CapHolds | internal/playground/service.go:285-460 | So it is within the cap in every state of any run whose retries all saw DEAD first |
| CapacityGate.UncoveredRetryOverfills | internal/playground/service.go:407-427 | For any cap of at least one and any non-empty pool, a retry whose first read saw RUNNING brings some run one task past the cap |
| CapacityGate.Service.EnsureCapacity | internal/playground/service.go:450-460 | Reports full exactly when depth plus the request exceeds the cap |
| CapacityGate.Service.EnqueueBatch | internal/playground/service.go:304-405 | A batch is refused whole, or each of its rows is inserted under its own id with its type, payload and key, PENDING and due at once, every other row is untouched, and the queue ends within the cap |

## Left out

- Database and network errors: a transaction either commits or does not happen; an outcome write that fails is the abandon step.
- Isolation inside a transaction: each is atomic, except that claims are also split into lock and commit.
- Endless loops of `Worker.Start`, `startHeartbeat` and the reaper: their iterations are steps of the protocol, interleaved in any order.
- Overrun.OvershootBounded: the store never draws the same UUID twice; the protocol itself would let an insert use the id of a removed task again, so here that is a condition on the run.
- LeaseTiming.AbandonedIsReaped: the pass at that tick is taken to list every stale row; a row that another transaction keeps locked waits for a later tick.
- Overlap of handlers: a handler may keep running after its lease is lost; only its recorded outcome is fenced.
- Log messages and the text of the reason field: only statuses and dead-letter errors are modelled.
- Counters of one process: the totals over all processes are modelled, without resets on restart.
- Floating point: tokens and backoff are reals and the retry hint is not truncated.
- Go's decoder, number formatting and UTF-8: decoded values are the input, a number is the numeral it is printed as, strings are character sequences.
- SHA-256: a function that is assumed injective where replay or conflict depends on it.
- `sort.Strings`: modelled by insertion into a sorted sequence, not in place.
- CapacityGate.Service.EnqueueBatch: describes a batch nobody interleaves with; interleaving is covered by the gate machine.
- `List`, HTTP handlers, the web UI, configuration loading, migrations, sessions and parameter validation, the crash demo: they read rows or call the operations above one at a time and add no state that these share.
