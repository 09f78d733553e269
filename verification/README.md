# Throttled futures, repeated tasks and global runtimes: a Dafny model

The crate runs futures at five priorities. A future of a lower priority is wrapped: its `poll` puts
sleeps in front of the inner future's polls, by counting (`mode_count`), by measured time
(`mode_time`) or by asking a shared rate limiter (`mode_ratelimiter`). Beside the wrappers it keeps
completion records per type of future, a task that is called again and again until it is stopped,
and a set of global runtimes that may be configured once.

| file | contents |
|---|---|
| Polling.dfy | what one poll meets (clock readings, timer answers, jitter, admission) and the transcript of what it did; every total below is counted from that transcript |
| Priorities.dfy, RuntimeHandle.dfy | the two delay tables; the limiter's parameters and the state clones share |
| Transparency.dfy | what it means that a wrapper leaves the inner future as it was |
| ModeCount.dfy, ModeTime.dfy, ModeRateLimiter.dfy | the three wrappers, each as a class whose `Poll` is proved against a step function, and theorems about every run of that function |
| Wrapper.dfy | the three as one: transparency and timing for any mode |
| Fleet.dfy | any number of wrapped futures on an executor, as a transition system |
| FleetLaws.dfy, FleetProgress.dfy | the laws of the modes in every reachable fleet; how every reachable fleet can be brought to its end |
| Records.dfy, RecordTable.dfy | the window of completion records, as objects and under every interleaving |
| RepeatedTasks.dfy | start, stop, drop and the background loop, as an object and under every interleaving |
| GlobalRuntimes.dfy | `Once`, mutex and `Lazy` under every interleaving, with a panic at any creation |

What the model takes for granted:

- Times are nanoseconds on one clock. Where a theorem needs it, a run is `Legal`: readings never go
  back, a sleep is not ready before its deadline (tokio's promise), and a future that was ready is
  not polled again (what `Future` asks of its callers).
- The inner future is an arbitrary function from its state and whatever it can see to a new state and
  an answer. Timer answers, jitter in 0..9 and the limiter's answers are arbitrary.
- The limiter promises no more than a token bucket: it grants admission only against a token, holds at
  most `max_tokens`, and is refilled once per interval. It may refuse at any time.
- Arithmetic is that of a release build: u32 and u64 counters wrap.
- In the transition systems one poll of one task is one step; critical sections, the loop of a repeated
  task and the recording of a completion are split at every shared access.

What the proofs turned up:

- The event counter of count mode is a u32 that is compared with multiples of five. 2^32 - 1 and the 0
  after it are both multiples of five, so a wrap gives two backoffs in a row. "One backoff for four
  inner Pendings", and "no two backoffs in a row", hold of a finished future exactly below 3435973836
  Pendings (`ModeCount.QuarterExactly`, `ModeCount.SpacedByPendings`).
- Count-mode totals of neighbours in the table are not ordered for every jitter: with four inner
  Pendings a Low future can be delayed less than a Middle one (`ModeCount.JitterReverses`).
- The shared counter of the rate-limited mode is decremented when a backoff is found over and never
  incremented. It is no gauge of waiting futures but minus the number of such polls, modulo 2^64
  (`Fleet.Conservation`): `Fleet.NoGauge` is a run in which it is 0 while one future waits and 2^64 - 1
  when none does. `Fleet.GaugeExactly` says when it equals their number.
- Between the lookup under the read lock and the insert under the write lock another completion of the
  same type can insert first; its window is then replaced and its records are lost
  (`RecordTable.OverwriteLoses`). Whether that can still happen to a type is decided by the completions
  that have looked it up in vain and not inserted yet (`RecordTable.LossFreeExactly`). A record is never
  pushed into a window that was replaced, because the read guard lives until the push is done.
- A published rate is a number exactly when every total in the window is positive (`Records.MeanFinite`);
  a future that is ready before the clock has moved has a total of zero (`Records.ZeroTotal`).
- `stop` says Ok without waiting when it finds no handle, so of two stops the second can return while
  the task is still going to be called (`RepeatedTasks.SecondStopReturnsEarly`). In every reachable state
  a call can follow exactly when the loop lives or a start can still spawn it
  (`RepeatedTasks.CallsAgainExactly`).
- A waiting stop need not ever return Ok. It still can exactly when the loop has exited or gets to look at
  its token again: with an interval, whenever the loop has not died; with an interval of zero, only
  before the first call, during or ahead of a first delay (`RepeatedTasks.WaitingStopExactly`).
- The comment on `init_global_runtimes` (src/global.rs:146-150) says that it panics when the runtimes
  are already initialised. After a completed init the code returns silently and drops the options, also
  when the runtimes are in use by then (`GlobalRuntimes.LaterInitIgnored`). An init call can still return
  exactly unless no configuration was completed and the runtimes are in use or about to be, or the `Once`
  or the mutex is poisoned (`GlobalRuntimes.InitReturnsExactly`); it can still panic exactly as long as
  no call has created all four runtimes (`GlobalRuntimes.InitPanicsExactly`). The model follows the code.

## Model

| member | source | states |
|---|---|---|
| ModeCount.PendingFuture.constructor | src/pending_future/mode_count.rs:131-142 | a new wrapper satisfies the counting law and is faithful to its inner future |
| ModeCount.PendingFuture.Poll | src/pending_future/mode_count.rs:166-303 | one poll in place is the step function's, from clock entry to completion record, it wakes its own waker exactly when a fresh sleep is ready at once, and it keeps the counting law, a poll time that is the sum of what its inner polls measured, and the faithfulness to the bare inner future |
| ModeCount.LawNext | src/pending_future/mode_count.rs:175-302 | every poll, whatever its turn brings, keeps: the counter counts Pendings and backoffs, backoffs are those events that reach a multiple of five, the delay total is the table's plus the jitter, every poll is a wait, a backoff or an inner poll |
| ModeCount.TranscriptAnswers | src/pending_future/mode_count.rs:166-262 | every observation of every run says what its turn brought: a delay is the table value plus the jitter drawn in that poll, an inner poll is measured from the reading on entry to the one after it returned |
| ModeCount.PollTimeExact | src/pending_future/mode_count.rs:255-256 | in every run the poll time is exactly the sum, modulo 2^64, of the whole microseconds of its inner polls |
| ModeCount.RecordExact | src/pending_future/mode_count.rs:258-262 | the record of every finished legal run is the microseconds from the first begin reading to the last finish reading, and that sum |
| ModeCount.CounterClosedForm | src/pending_future/mode_count.rs:195-298 | after e events the u32 counter is e mod 2^32, and the events that reached a multiple of five are 858993460 for each full cycle and a fifth of the rest |
| ModeCount.ClosedForm | src/pending_future/mode_count.rs:195-256 | in every reachable state: backoffs from the number of events; before the counter wraps, backoffs = pend_cnt/5 and inner Pendings = pend_cnt - pend_cnt/5; none at VeryHigh |
| ModeCount.Completion | src/pending_future/mode_count.rs:175-301 | a finished future whose inner future pended N times has q = N/4 + N/3435973836 backoffs, pend_cnt = N + q mod 2^32, N + 1 + q + waits polls, and a delay of q table values plus at most 9 ms jitter each; VeryHigh none |
| ModeCount.PollsSoFar | src/pending_future/mode_count.rs:175-301 | before it is finished: every poll is a wait, an inner Pending or a backoff, and the latter two are at most N + N/4 + N/3435973836 |
| ModeCount.Terminates | src/pending_future/mode_count.rs:175-301 | if the inner future pends at most L times, every run under every schedule is finished after more than L + L/4 + L/3435973836 polls that are not waits |
| ModeCount.MeasureDrops | src/pending_future/mode_count.rs:175-301 | every poll that is not a wait finishes the future, uses up a Pending, or leaves the Pendings and lowers the number of backoffs due in a row |
| ModeCount.QuarterExactly | src/pending_future/mode_count.rs:195-256 | backoffs = N/4 if and only if N < 3435973836 |
| ModeCount.SpacedExactly | src/pending_future/mode_count.rs:195-256 | no two backoffs without an inner poll between them if and only if there were fewer than 2^32 events |
| ModeCount.SpacedByPendings | src/pending_future/mode_count.rs:195-256 | of a finished future: if and only if N < 3435973836 |
| ModeCount.PrioritySeparation | src/priority.rs:15-39 | for the same N: the exact difference of the delay totals of neighbours in the table; VeryLow above every other level and Low above High for all jitters |
| ModeCount.JitterReverses | src/pending_future/mode_count.rs:238-243 | for Low/Middle and Middle/High there are legal runs in which the lower priority is delayed less |
| ModeCount.WallClock | src/pending_future/mode_count.rs:168-183 | in every legal run measured poll time and requested delays fit one after the other between the first reading and now, or the running deadline, except for what polls measured of backoffs that ended during them |
| ModeCount.CompletionTime | src/pending_future/mode_count.rs:168-262 | at completion: recorded poll time plus all delays is at most the recorded total plus the slack of the double reading on entry, which is bounded by the gaps between the readings on entry |
| ModeCount.OverlapBound | src/pending_future/mode_count.rs:168-183 | in every legal run, what polls measured of backoffs is at most the gaps between their two readings on entry |
| ModeCount.NoOverlap | src/pending_future/mode_count.rs:168-183 | with one clock reading on entry, no measured poll reaches back into a backoff |
| ModeCount.OneReading | src/pending_future/mode_count.rs:255-262 | with one clock reading on entry the recorded poll time and all delays fit into the recorded total, to the microsecond |
| ModeCount.CompletesAfter | src/pending_future/mode_count.rs:166-303 | for every N and every jitter there is a legal run that pends N times, always draws that jitter, and completes: the bounds are met at both ends |
| ModeCount.OneBackoffTooMany | src/pending_future/mode_count.rs:195-298 | a legal run with 3435973836 inner Pendings has one backoff more than a quarter of them, and two in a row |
| ModeTime.PendingFuture.constructor | src/pending_future/mode_time.rs:45-54 | a new wrapper satisfies the charging law and is faithful to its inner future |
| ModeTime.PendingFuture.Poll | src/pending_future/mode_time.rs:64-124 | one poll in place is the step function's and keeps the charging law and faithfulness |
| ModeTime.LawNext | src/pending_future/mode_time.rs:67-123 | every poll keeps accumulator, counters and sleep totals equal to the plan that the measured times determine, and never inserts a delay right after a delay |
| ModeTime.TranscriptAnswers | src/pending_future/mode_time.rs:98-119 | every observation of every run says what its turn brought: an inner poll is measured between the readings just before and just after it, and a sleep for n charged units lasts period * n / 2 + 2 ms |
| ModeTime.InsertsExactly | src/pending_future/mode_time.rs:82-87 | in every run a poll of a throttled future that does not wait inserts a delay if and only if more than ten measured microseconds are uncharged, and then charges all whole tens of them |
| ModeTime.PlanHolds | src/pending_future/mode_time.rs:82-100 | conservation: measured = 10 times charged + gathered + lost to u64 wraps, and the sleep total is half the table value per charged unit plus 1.5 to 2 ms per sleep |
| ModeTime.ExecFollowsPlan | src/pending_future/mode_time.rs:64-124 | every run follows that plan, and two delays always have an inner poll between them |
| ModeTime.SandwichBound | src/pending_future/mode_time.rs:82-119 | just before every inner poll of a throttled future: p(E - 10) + 30q <= 20S <= (p + 4)E, the accumulator is at most 10, there were at most E/10 backoffs and no more than inner Pendings |
| ModeTime.ExpiredEnters | src/pending_future/mode_time.rs:69-113 | the poll that finds a backoff over always reaches the inner future, with a remainder below ten |
| ModeTime.PollsUsed | src/pending_future/mode_time.rs:67-123 | at every moment of every run the polls are the inner polls, the backoffs and the waits, with at most one backoff for each inner Pending, none at VeryHigh |
| ModeTime.Terminates | src/pending_future/mode_time.rs:67-123 | if the inner future pends at most L times, every run under every schedule is finished after more than 2L polls that are not waits |
| ModeTime.PrioritySeparation | src/priority.rs:41-49 | for the same measured times, neighbours in the table sleep equally often and their totals differ by one ms per charged unit |
| ModeTime.SleepFitsU64 | src/pending_future/mode_time.rs:86-100 | no product or sum in the sleep length overflows a u64, whatever the accumulator holds |
| ModeRateLimiter.PendingFuture.constructor | src/pending_future/mode_ratelimiter.rs:65-75 | a new wrapper satisfies the accounting law and is faithful to its inner future |
| ModeRateLimiter.PendingFuture.Poll | src/pending_future/mode_ratelimiter.rs:85-128 | one poll in place is the step function's, keeps accounts and faithfulness, and decrements the shared counter exactly when it finds a backoff over |
| ModeRateLimiter.LawNext | src/pending_future/mode_ratelimiter.rs:88-127 | every poll keeps the accounts of admissions, refusals, Pendings and waits |
| ModeRateLimiter.TranscriptAnswers | src/pending_future/mode_ratelimiter.rs:102-119 | every observation of every run says what its turn brought: a delay is exactly the wait that the limiter refused with, and a limited future is polled only with an admission of that poll |
| ModeRateLimiter.RequestedExactly | src/pending_future/mode_ratelimiter.rs:104-105 | the delays of every run add up to the waits of its refused admissions |
| ModeRateLimiter.Accounting | src/pending_future/mode_ratelimiter.rs:102-125 | pend_cnt of a limited future counts inner polls, refusals and Pendings, 2N + 1 + B at completion; of an unlimited one the Pendings |
| RuntimeHandle.NewHandle | src/pending_future/runtime_handle.rs:43-152 | a new handle has its own zeroed state and a limiter of 800 tokens each 70 ms, 1100 each 50, 1400 each 30 or 1700 each 10 by priority, at most 2000 kept, none exactly at VeryHigh |
| RuntimeHandle.DropHandle | src/pending_future/runtime_handle.rs:33-37 | dropping any clone raises the flag they all share and leaves the counter alone |
| RuntimeHandle.DecrementsClosedForm | src/pending_future/mode_ratelimiter.rs:93 | a u64 decremented n times from zero is minus n modulo 2^64 |
| Wrapper.Transparent | src/pending_future/mode_count.rs:166-303 | for every mode, inner future and schedule: the inner future goes through the states and gives the answers it would give by itself, the wrapper finishes exactly when it does and with its output, and it is never polled after Ready |
| Wrapper.InnerLeftAlone | src/pending_future/mode_time.rs:67-113 | for every mode: in a legal run no inner poll happens before the deadline of any delay inserted before it |
| Fleet.NoLostWakeup | src/pending_future/mode_count.rs:175-256 | for any fleet in any modes and any interleaving of polls, spurious polls, timer firings and inner wakes, every unfinished task is queued, or its timer or else its inner future holds the waker of its latest poll |
| Fleet.PollKeepsAwake | src/pending_future/mode_ratelimiter.rs:88-127 | no poll strands its task, whatever it does |
| Fleet.WakesAreArmed | src/pending_future/mode_count.rs:175-256 | in every reachable fleet a timer is armed only for a running backoff, with the latest waker, and an inner future holds a waker only if it was polled and pended last |
| Fleet.SleepsUntilWoken | src/pending_future/mode_count.rs:244-255 | after a poll a task is queued, whatever the others do, only if it woke itself in that poll, until its own timer or its own inner future wakes it |
| Fleet.BackoffResolves | src/pending_future/mode_time.rs:67-113 | for a task that is backing off after any run, and any continuation with any wakes in it: it is never stranded; either it only waits in the same backoff with its timer armed or itself queued, or its inner future was polled or a backoff inserted since, the latter if and only if some poll of it found the sleep over |
| Fleet.BackoffCanResolve | src/pending_future/mode_ratelimiter.rs:88-119 | from every such state, at most one firing of the timer queues the task, and the poll that follows reaches the inner future or inserts a backoff |
| Fleet.Conservation | src/pending_future/mode_ratelimiter.rs:93-119 | for every handle and run: inner polls of the tasks that share it = grants of its limiter, and the shared counter = minus the polls that found a backoff over, modulo 2^64 |
| Fleet.NoGauge | src/pending_future/mode_ratelimiter.rs:93 | a run in which the shared counter is 0 while one future waits, and 2^64 - 1 when none does |
| Fleet.GaugeExactly | src/pending_future/mode_ratelimiter.rs:93 | in every reachable state the shared counter equals the number of waiting futures if and only if that number plus the polls that found a backoff over is 0 modulo 2^64; below 2^64, if and only if both are 0 |
| Fleet.Throughput | src/pending_future/runtime_handle.rs:109-151 | in any window of any run, between any two moments and however long the limiter was idle before, the tasks of a handle poll their inner futures at most 2000 times plus the refill of the window, itself at most one interval's tokens over its length |
| FleetLaws.TasksLawful | src/pending_future/mode_count.rs:166-303 | every task of every reachable fleet keeps the law of its mode and is faithful to the inner future it was spawned with |
| FleetLaws.TasksTotals | src/pending_future/mode_time.rs:64-124 | so the closed forms, the sandwich bound and the accounts hold of every task of every reachable fleet |
| FleetProgress.AllFinish | src/pending_future/mode_ratelimiter.rs:85-128 | if the inner futures pend only finitely often, every reachable fleet has a continuation that finishes all tasks while polling only queued ones, in any modes |
| Records.RecordCell.constructor | src/pending_future/mode_count.rs:280-292 | a new entry holds its first record and publishes its share |
| Records.RecordCell.Push | src/pending_future/mode_count.rs:265-277 | the window stays the last ten of all records pushed and the published rate its mean |
| Records.FutureRecords.Record | src/pending_future/mode_count.rs:263-293 | recording by itself appends the record to its type's entry, made if missing, and leaves all other entries alone |
| Records.MeanFinite | src/pending_future/mode_count.rs:270-277 | the mean of a window is a number if and only if every total in it is positive |
| Records.MeanGrows | src/pending_future/mode_count.rs:270-276 | the mean times the number of records grows by exactly the share of each further record |
| Records.ZeroTotal | src/pending_future/mode_count.rs:259-286 | a legal run whose record has a total of zero, so that the rate made of it is not a number |
| Records.SumBounded | src/pending_future/mode_count.rs:270-277 | with no poll time above its total, the shares of a window add up to between 0 and their number |
| Records.DutyCycle | src/pending_future/mode_count.rs:255-262 | with one clock reading on entry, the recorded share of a throttled future is at most what its delays leave of the total |
| RecordTable.StepInv | src/pending_future/mode_count.rs:263-293 | every step of every completion keeps: locks exclude each other, a reader's entry is still the one in the table, and windows and rates are as the position of the mutex holder says |
| RecordTable.WindowAgrees | src/pending_future/mode_count.rs:264-292 | whenever an entry's mutex is free, its window holds 1 to 10 records, the last ones stored since the latest insert in mutex order, and the published rate is their mean; at every moment the rate is the mean of the last ten with or without the newest |
| RecordTable.Conservation | src/pending_future/mode_count.rs:263-292 | at every moment and for each type: records stored = in the window + evicted + lost to overwriting inserts |
| RecordTable.NoMoreLosses | src/pending_future/mode_count.rs:278-292 | once a key is there and the completions that looked it up in vain have inserted, no run loses a record but by eviction or replaces the entry |
| RecordTable.LossFreeExactly | src/pending_future/mode_count.rs:264-281 | in every reachable state with an entry for the key: no continuation loses a record to an overwriting insert if and only if no completion is left that looked the key up in vain and has not inserted |
| RecordTable.Progress | src/pending_future/mode_count.rs:263-281 | the table's lock and the entries' mutexes never lock each other out |
| RecordTable.AllComplete | src/pending_future/mode_count.rs:263-293 | from every reachable state all completions can be brought to their end |
| RecordTable.StepsBounded | src/pending_future/mode_count.rs:263-293 | no schedule takes more than seven steps for each completion |
| RecordTable.RecordAlone | src/pending_future/mode_count.rs:263-293 | a completion that nobody interferes with stores its record behind all others of its type and changes no other entry, as the method on the objects does |
| RecordTable.OverwriteLoses | src/pending_future/mode_count.rs:264-281 | two completions of a new type that both look first leave one record in the window and lose one |
| RepeatedTasks.RepeatedTask.constructor | src/repeated_task.rs:81-93 | a new task has its function, no handle, is not started and not cancelled |
| RepeatedTasks.RepeatedTask.WithInitialDelay | src/repeated_task.rs:95-98 | sets the initial delay and nothing else |
| RepeatedTasks.RepeatedTask.Start | src/repeated_task.rs:104-142 | succeeds exactly on a new task, hands over its function with a token that is not cancelled, and otherwise changes nothing |
| RepeatedTasks.RepeatedTask.StopLocked | src/repeated_task.rs:145-156 | gives out the handle and cancels exactly when the task runs, and otherwise changes nothing |
| RepeatedTasks.RepeatedTask.Drop | src/repeated_task.rs:67-75 | the token is cancelled afterwards unless the task was never started |
| RepeatedTasks.LifeStep | src/repeated_task.rs:104-156 | every step of every caller, of the loop, of the clock and of the drop keeps the lifecycle invariant |
| RepeatedTasks.LifecycleLaw | src/repeated_task.rs:104-156 | whenever the lock is free the task is new, running or stopped; at most one start takes the function; no start passes a cancelled token |
| RepeatedTasks.Pacing | src/repeated_task.rs:114-131 | if n >= 1 calls have begun, the first delay and n - 1 intervals have passed since the loop was spawned |
| RepeatedTasks.PacingMet | src/repeated_task.rs:114-131 | and the bound is met: for every configuration and every n there is a run from a new task in which n calls have begun exactly then |
| RepeatedTasks.OneMoreCall | src/repeated_task.rs:117-131 | with an interval, at most one call begins after the cancellation, not counting sleeps that were ready at their first poll |
| RepeatedTasks.ZeroIntervalNeverStops | src/repeated_task.rs:119-127 | without an interval, after the first call the cancel branch is never reached and no stop that waits returns Ok |
| RepeatedTasks.WaitingStopExactly | src/repeated_task.rs:117-164 | in every reachable state, a waiting stop has a continuation in which it returns Ok if and only if the loop has exited or still gets to look at its token; with an interval, if and only if it has not died |
| RepeatedTasks.Quiescence | src/repeated_task.rs:158-164 | once the stop that took the handle has returned Ok, no continuation of the run calls the task again |
| RepeatedTasks.SecondStopReturnsEarly | src/repeated_task.rs:147-150 | a run in which a stop that finds no handle returns Ok before a further call begins |
| RepeatedTasks.CallsAgainExactly | src/repeated_task.rs:104-164 | in every reachable state, also after a stop returned Ok, some continuation begins a further call if and only if the loop lives or a start can still spawn it |
| RepeatedTasks.StartAlone | src/repeated_task.rs:104-142 | the steps of a start that nobody interferes with have the effect of the method, and spawn the loop exactly when it succeeds |
| RepeatedTasks.StopAlone | src/repeated_task.rs:144-156 | the steps of a stop that nobody interferes with have the effect of the method, and wait exactly when it gives out a handle |
| GlobalRuntimes.ConfigRuntimes.constructor | src/global.rs:123-130 | nothing configured, not in use |
| GlobalRuntimes.ConfigRuntimes.Configure | src/global.rs:154-171 | sets the runtimes in order up to the first creation that fails, all four if none does, and panics without a change if the runtimes are in use |
| GlobalRuntimes.ConfigRuntimes.TakeAll | src/global.rs:133-138 | takes out all four and marks the runtimes as in use |
| GlobalRuntimes.StepInv | src/global.rs:132-173 | every step of every call, also a panic, keeps the invariant on Once, Lazy, mutex, configuration and ended calls |
| GlobalRuntimes.AllOrNothing | src/global.rs:104-173 | over every interleaving and every panic, published runtimes are all four of one init call, sized by its options and with 2 heartbeat workers, or all four defaults of 8, 8, 4 and 2, according to whether an init got through |
| GlobalRuntimes.InitReturned | src/global.rs:151-173 | after an init returned, whatever is published now was configured by the one init that ran, and until first use the configuration is complete |
| GlobalRuntimes.InitProtects | src/global.rs:132-173 | after an init returned, no continuation of the run has a call that panicked, be it a use or another init |
| GlobalRuntimes.Outcomes | src/global.rs:132-173 | an init returns only with a completed configuration, a use only with published runtimes, and a panic leaves its Once or Lazy poisoned |
| GlobalRuntimes.Immutable | src/global.rs:132-141 | no later call changes what is published |
| GlobalRuntimes.NoDeadlock | src/global.rs:132-173 | from every reachable state all calls can be brought to their end, whether further creations succeed or fail |
| GlobalRuntimes.SomeEnabled | src/global.rs:133-154 | as long as a call is unfinished, some call can go on: Once, Lazy and mutex are acquired without a cycle |
| GlobalRuntimes.StepsBounded | src/global.rs:104-173 | no run takes more than ten steps for each call |
| GlobalRuntimes.LaterInitIgnored | src/global.rs:151-173 | after a completed init, over every continuation: every other init call returns without running its closure, and whatever is published has the options of the completed one |
| GlobalRuntimes.InitReturnsExactly | src/global.rs:151-173 | in every reachable state and for every init call: some continuation lets it return if and only if it is not the case that no configuration is complete and the runtimes are in use or about to be, or the Once or the mutex is poisoned |
| GlobalRuntimes.InitPanicsExactly | src/global.rs:153-171 | in every reachable state and for every init call: some continuation lets it panic if and only if no call has created all four runtimes |
| GlobalRuntimes.InitAlone | src/global.rs:151-173 | the steps of an init that nobody interferes with configure what the method does, up to the first creation that fails, and end as it does |
| GlobalRuntimes.UseAlone | src/global.rs:132-141 | the steps of a first use that nobody interferes with take out everything and publish it, with defaults for what is missing |

## Left out

- The implementation of tokio (executor, timer wheel, join handles, cancellation tokens) and of the ratelimit crate; they appear as arbitrary answers under the contracts named above.
- The background loop of a repeated task is a step machine and not a `while` loop, because it does not terminate; that its own steps are taken in order is part of the machine.
- Two threads inside one poll of one task: `poll` takes the future by exclusive reference, so a poll is one step of a fleet. A wake that arrives during a poll is taken to arrive right after it.
- Polling a wrapper again after it was ready: callers of `Future` must not, and the wrappers hand such a poll to the inner future.
- The panics of a debug build when `pend_cnt` or the measured times overflow; the model wraps as a release build does.
- A panic inside a critical section of a repeated task, which would poison its mutex; reading its name and its `started` flag from outside.
- The lazy creation of the mutex around the configured runtimes (src/global.rs:143-144), which happens before its first lock and cannot fail.
- Rounding of f64 means: shares are exact reals, and a quotient by zero is only known not to be a number or not to be finite.
- The stop flag beyond being raised, the unused channel and the third field of a rate-limiter handle: nothing live reads them.
- src/runtime.rs, src/metrics.rs, src/error.rs and src/lib.rs: builder forwarding, gauges, error declarations and re-exports.
- Logging and `println!`, code that is commented out, the plotting script and the workload tests.
