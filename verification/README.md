# Admission gateway: a verified model

This project models the stateful core of an inference gateway and proves what it promises. The
gateway admits requests to a few GPU slots through a priority queue, lowers its ceiling when the
GPU is under pressure, limits request rates and authentication failures, records the life of
every job in a row, and rolls those rows up into daily usage.

Files, from the bottom up:

- `Options`, `MapSums`, `Ordering`, `Selections`, `Lists`, `Rounding`: missing values, sums over
  maps, sorting and order statistics, subsequences chosen by a mask, filtering and summing lists,
  rounding half to even.
- `SchedulerModel`: the scheduler as a transition system. Every critical section runs without
  giving up its lock, so each is one atomic event: `Admit`, `Wake`, `Timeout`, `Cancel`,
  `Release`, `SetPolicy`. A ledger records where each waiter is; only proofs read it.
- `GreedyPromotion`: one promotion pass, compared with every other selection of waiters.
- `SchedulerInvariant`, `SchedulerRuns`, `SchedulerDrain`: what every event keeps, theorems about
  whole runs, and when the queue drains.
- `AdmissionQueue`: the scheduler object, updated in place, each method proved to perform one
  event of the transition system on the object's `View`.
- `WindowMedian`, `Hysteresis`, `Pressure`, `PressureHistory`: medians, the automaton that decides
  when to change level, the pressure evaluator object built from both, and its level characterised
  by everything it was ever fed.
- `ModePolicy`: modes, ceilings, and evaluator, policy and scheduler run together.
- `Limiters`: the rate limiter and the authentication throttle, against complete histories.
- `JobLifecycle`: the row object, its guarded and unguarded writers, their interleavings,
  restart reconciliation.
- `Sessions`, `Rollup`, `UsageRows`: session counting, the daily aggregation, and what each row of
  the table says in terms of the jobs' own fields.

The class methods are tied to functions on values by their postconditions; the theorems are about
those functions, so a class `Valid()` only says that objects and ledger agree.

## What the proofs found

- A waiter that slept in the queue, is promoted, and is cancelled before its task wakes gives
  nothing back (`gateway/app/scheduler/queue.py:107`): its slot stays counted for ever. The active
  count returns to zero exactly when this never happened (`IdleMeansZeroIffNoneAbandoned`). One
  occurrence can block the queue for good (`OneAbandonedSlotDeadlocks`). With the default cap of one (`gateway/app/config.py:35`) a single one locks its user
  out (`LockedOut`).
- Raising a limit promotes nobody (`gateway/app/modes/effective.py:54-57`), and an admission that
  meets a full queue promotes nobody either. A queue that filled up while the ceiling was zero
  therefore stays blocked after the pressure is gone, with slots free and every further request
  turned away, until a waiter is cancelled or times out (`RaisedCeilingStalls`,
  `FullQueueIgnoresRecovery`).
- `ServedIffRoom` says exactly when draining works: the abandoned slots leave room under the ceiling
  and under the user's cap, and the queue was settled or some event makes a promotion pass.
- The handler's own row writes (`gateway/app/api/v1/chat.py:154,162,178,181`) do not look at the
  status. "First writer wins" therefore holds exactly when each of them meets a row that is not
  terminal (`FirstTerminalWinsIff`), and a cancel can be lost (`CancelCanBeLost`). The comment at
  `gateway/app/api/v1/chat.py:184-188` says a late recorder write re-sets the same fields; the
  code leaves a terminal row alone.
- MODERATE pressure gives a base ceiling of zero one slot: the ceiling is antitone in the level
  exactly for a base of at least one (`CeilingAntitoneIff`).
- The rate limiter is documented as a fixed-window counter (`gateway/app/api/security.py:17`); the
  code is a sliding window over grants, and that is what is modelled.
- Sessions are documented as runs of requests from one key (`gateway/app/analytics/rollup.py:22-24`);
  the code counts them per user and model, and so does the model.
- "Unknown pressure is never treated as LOW" (`gateway/app/modes/pressure.py:99`) holds in every case
  but one: an evaluator that has not ingested anything yet (`UnknownIsLowIff`).
- A restart closes running rows without a generation time. Over every interleaving the waiting and
  generation times of a terminal row that started add up exactly if no restart closed it
  (`TimesAddUp`, `RestartLosesGenerationTime`). A row that was still RECEIVED stays open unless
  somebody cancels it (`ReceivedStaysOpen`).
- `completed_at` marks terminal rows exactly as long as the handler's QUEUED and RUNNING writes meet
  none (`EndTimeMarksTerminalIff`); `CancelCanBeLost` shows a RUNNING row that has an end time.

## Model

| member | source | states |
|---|---|---|
| GreedyPromotion.GreedyIsTheOptimum | gateway/app/scheduler/queue.py:67-77 | The waiters one promotion pass picks are the only choice that respects the ceiling and every per-user cap and takes at least as much of every prefix of the ranked queue as any other such choice (if and only if) |
| GreedyPromotion.GreedyDominates | gateway/app/scheduler/queue.py:67-77 | No choice within the limits takes more waiters from any prefix of the ranked queue than the loop does |
| GreedyPromotion.PrefixExact | gateway/app/scheduler/queue.py:67-77 | Of the first k ranked waiters exactly min(free slots, sum over users of min(free slots of the user, waiters of the user among the k)) are promoted |
| GreedyPromotion.GreedyFeasible | gateway/app/scheduler/queue.py:70-73 | What the loop promotes fits into the free slots, in total and for every user |
| GreedyPromotion.ScanAccounts | gateway/app/scheduler/queue.py:76-77 | The loop adds to the total and to each per-user counter exactly the number of waiters it promoted |
| GreedyPromotion.ScanWithinCap | gateway/app/scheduler/queue.py:70-73 | The loop takes no counter beyond the larger of its limit and what it was before, also when a limit has dropped below the counter |
| GreedyPromotion.PickedByUser | gateway/app/scheduler/queue.py:76-77 | The number of promoted waiters is the sum over users of the promoted waiters of each |
| GreedyPromotion.BypassOnlyAtCap | gateway/app/scheduler/queue.py:69-73 | A waiter is passed over in favour of a later one only if its own user, counting the promotions made so far in the pass, is at its cap, and the later one is another user's |
| GreedyPromotion.ScanSaturates | gateway/app/scheduler/queue.py:69-77 | After a pass the ceiling is reached or every remaining waiter's user is at its cap |
| GreedyPromotion.SaturatedScan | gateway/app/scheduler/queue.py:69-73 | A pass over a queue from which nobody can be promoted picks nobody and leaves the counters alone |
| GreedyPromotion.StrictPriority | gateway/app/scheduler/queue.py:69-73 | When the cap cannot bind, a waiter is promoted exactly when its rank is below the number of free slots |
| SchedulerInvariant.PromoteMoves | gateway/app/scheduler/queue.py:67-77 | Promotion moves a set of waiters out of the queue, keeps the others without duplicates in rank order, and touches nothing but counters, queue and ledger |
| SchedulerInvariant.PromoteCounts | gateway/app/scheduler/queue.py:67-77 | Each counter grows by exactly the promoted waiters it stands for, within the larger of its limit and its old value |
| SchedulerInvariant.PromoteChooses | gateway/app/scheduler/queue.py:67-77 | Promotion ends saturated, happens only below the ceiling, and leaves a better-ranked waiter behind only if it is another user's and that user ends at its cap |
| SchedulerInvariant.InitInv | gateway/app/scheduler/queue.py:38-46 | A new scheduler satisfies the accounting invariant, whatever its limits |
| SchedulerInvariant.EnqueueKeeps | gateway/app/scheduler/queue.py:83-88 | Joining the queue keeps the accounts exact and the sequence numbers distinct |
| SchedulerInvariant.DequeueKeeps | gateway/app/scheduler/queue.py:97-111 | Timing out or being cancelled while queued keeps the accounts exact and the queue in order |
| SchedulerInvariant.FreeKeeps | gateway/app/scheduler/queue.py:115-120 | Giving a slot back keeps the accounts exact, including the deletion of a counter that falls to zero |
| SchedulerInvariant.StepKeeps | gateway/app/scheduler/queue.py:83-122 | Every critical section keeps the invariant: counters equal to the occupied slots in total and per user, queue equal to those recorded as waiting, depth respected, rank order |
| SchedulerInvariant.RunKeeps | gateway/app/scheduler/queue.py:67-122 | The invariant holds in every state of every run |
| SchedulerRuns.AccountingOverRuns | gateway/app/scheduler/queue.py:79-122 | Over every run: active count = sum of per-user counts = granted + holding + abandoned; the queue is exactly the waiting and within its depth; everybody admitted past the full check is in exactly one of the seven places |
| SchedulerRuns.IdleMeansZeroIffNoneAbandoned | gateway/app/scheduler/queue.py:105-122 | With nobody granted or holding, the active count is the number of abandoned slots, and zero exactly when there are none |
| SchedulerRuns.StepMoves | gateway/app/scheduler/queue.py:83-122 | One step moves a waiter only along the allowed transitions: waiting to granted, timed out or cancelled; granted to holding or abandoned; holding to released |
| SchedulerRuns.PlacesOverRuns | gateway/app/scheduler/queue.py:92-122 | Over a whole run places only move forward: a promoted waiter never times out, and released, timed out, cancelled and abandoned are final |
| SchedulerRuns.PlacesHaveCauses | gateway/app/scheduler/queue.py:92-122 | Over every run a waiter is recorded as timed out, cancelled in the queue, abandoned or released exactly if that event occurred for it |
| SchedulerRuns.AdmittedIff | gateway/app/scheduler/queue.py:83-90 | A waiter is on record exactly if some admission with its user, priority and number met a queue that was not full |
| SchedulerRuns.NumbersAreDrawn | gateway/app/scheduler/queue.py:83-87 | Sequence numbers are drawn by admissions alone, one each, those turned away included |
| SchedulerRuns.StepPassesOverOnlyAtCap | gateway/app/scheduler/queue.py:67-77 | Whoever any event promotes, everybody ranked above who stays queued belongs to another user that is at its cap |
| SchedulerRuns.RankOrderWithinUser | gateway/app/scheduler/queue.py:67-77 | Two waiters of one user are never promoted out of rank order over any run, whatever arrivals, timeouts, cancellations, releases and policy changes happen in between |
| SchedulerRuns.StepBounds | gateway/app/scheduler/queue.py:67-77 | One event takes no counter above the larger of its old value and the limit in force, lowers the active count by at most one, and lowers it only if it is a release |
| SchedulerRuns.WithinPeakLimits | gateway/app/scheduler/queue.py:67-122 | Over every run under moving limits the counters never exceed the largest ceiling and the largest cap in force so far |
| SchedulerRuns.StepSettles | gateway/app/scheduler/queue.py:89-121 | An admission, a cancellation in the queue or a release leaves nobody promotable; a timeout, a wake-up or a lowered limit preserves that |
| SchedulerRuns.SettledUntilRaised | gateway/app/scheduler/queue.py:67-122 | From any promoting event on nobody is promotable in any state until a policy raises a limit |
| SchedulerRuns.PromotionIdempotent | gateway/app/scheduler/queue.py:67-77 | A second pass right after the first changes nothing at all, not even the zero entries left by reading the per-user dictionary |
| SchedulerDrain.StepWorks | gateway/app/scheduler/queue.py:95-122 | Without arrivals, policy changes and abandoned slots every event strictly lowers a measure of the work left |
| SchedulerDrain.ReleaseShrinks | gateway/app/scheduler/queue.py:115-122 | A release lowers waiting plus active by exactly one, however many it promotes |
| SchedulerDrain.NeverStuck | gateway/app/scheduler/queue.py:67-77 | With limits of at least one and nothing abandoned, as long as anybody waits or occupies a slot some task can wake or release |
| SchedulerDrain.DrainsCompletely | gateway/app/scheduler/queue.py:67-122 | Without abandoned slots at the start and with limits of at least one: every draining run is bounded by the work it starts with; one that starts settled or makes a promotion pass ends with queue and active count both zero when no task can wake or release any more; and whenever both are zero nobody can move and everybody was served, timed out or was cancelled |
| SchedulerDrain.LeftBehindOnlyByAbandoned | gateway/app/scheduler/queue.py:105-111 | In a settled state in which no task can move, a waiter is left behind only because abandoned slots fill the ceiling or its user's cap; the equivalence over runs is ServedIffRoom |
| SchedulerDrain.NoPromotionWithoutRoom | gateway/app/scheduler/queue.py:70-71 | Over any stretch of a run in which no ceiling above the number of abandoned slots is in force, nobody is promoted and the active count only falls |
| SchedulerDrain.LockedOut | gateway/app/scheduler/queue.py:72-73 | Over any stretch in which no cap above the number of a user's abandoned slots is in force, no waiter of that user is promoted, however many slots are free; with the default cap of one, one abandoned slot locks its user out |
| SchedulerDrain.ServedIffRoom | gateway/app/scheduler/queue.py:67-122 | In a draining run from any state, at whose end no task can move, a waiter that neither times out nor is cancelled is served if and only if at the start the abandoned slots were fewer than the ceiling and those of its user fewer than the cap, and the start was settled or some event made a promotion pass |
| SchedulerDrain.FullQueueStalls | gateway/app/scheduler/queue.py:86-89 | While the queue is full, no admission and no new limits change queue or counters or promote anybody, however many slots are free, until somebody is cancelled in the queue, times out or releases |
| SchedulerDrain.RaisedCeilingStalls | gateway/app/scheduler/queue.py:86-89 | Counterexample: a queue filled under a ceiling of zero stays blocked after the ceiling is raised, with a free slot, room for the waiter and nobody who could move |
| SchedulerDrain.OneAbandonedSlotDeadlocks | gateway/app/scheduler/queue.py:92-122 | Counterexample: with one slot, A runs, B sleeps in the queue, A's release promotes B, B is cancelled before it wakes; the slot stays counted and the next request waits with nobody ahead and no task that can move |
| AdmissionQueue.Scheduler.constructor | gateway/app/scheduler/queue.py:38-46 | A new object is the initial state of the transition system |
| AdmissionQueue.Scheduler.TryPromote | gateway/app/scheduler/queue.py:67-77 | The in-place sort, loop and counter updates amount exactly to the promotion step on values, promoted flags included |
| AdmissionQueue.Scheduler.PromotionLoop | gateway/app/scheduler/queue.py:69-77 | The loop over a snapshot of the queue, removing from the live queue, stands after each turn where the scan on values stands |
| AdmissionQueue.Scheduler.Consider | gateway/app/scheduler/queue.py:72-77 | One turn of that loop passes over or promotes as the scan does, zero entry of the defaultdict included |
| AdmissionQueue.Scheduler.Enter | gateway/app/scheduler/queue.py:83-90 | Entering performs the Admit step; it fails exactly when the queue is full, and then only a sequence number is used up; that step is enabled, so call sequences are valid runs |
| AdmissionQueue.Scheduler.Turn | gateway/app/scheduler/queue.py:95-104 | A turn of the waiting loop is the Wake step for a promoted waiter even past its deadline, the Timeout step past the deadline, and otherwise changes nothing; that step is enabled, so call sequences are valid runs |
| AdmissionQueue.Scheduler.CancelWait | gateway/app/scheduler/queue.py:105-111 | A cancelled wait performs the Cancel step: dequeue and promote while queued, and no change of any counter if already promoted; that step is enabled, so call sequences are valid runs |
| AdmissionQueue.Scheduler.Leave | gateway/app/scheduler/queue.py:115-122 | Leaving performs the Release step: both counters down, a zero entry deleted, then a promotion pass; that step is enabled, so call sequences are valid runs |
| AdmissionQueue.Scheduler.SetLimits | gateway/app/modes/effective.py:54-57 | Applying a policy rewrites the two limits and promotes nobody; that step is enabled, so call sequences are valid runs |
| AdmissionQueue.SortCommutes | gateway/app/scheduler/queue.py:68 | Sorting waiter objects by the key sorts their tickets by rank |
| WindowMedian.MajorityDecides | gateway/app/modes/pressure.py:113-118 | A strict majority of a window below a threshold puts its median below, a strict majority at or above keeps it there, for odd and even windows |
| WindowMedian.KthBelow | gateway/app/modes/pressure.py:113-118 | The k-th smallest value is below a threshold exactly when more than k values are |
| WindowMedian.MedianMonotone | gateway/app/modes/pressure.py:113-118 | Raising the values pointwise never lowers the median |
| WindowMedian.MedianScaled | gateway/app/modes/pressure.py:34-36 | The median of values multiplied by one factor of any sign is the median multiplied by it |
| Pressure.PressureEvaluator.constructor | gateway/app/modes/pressure.py:81-91 | A new evaluator, for any configuration, has an empty window, level LOW, no candidate and unhealthy telemetry |
| Pressure.PressureEvaluator.IngestSample | gateway/app/modes/pressure.py:97-147 | Ingesting in place performs the step function whose histories the lemmas below characterise and returns the new level; it raises exactly for a reading when the window can hold none, with health and last sample already set and the automaton untouched |
| PressureHistory.WindowIsRecent | gateway/app/modes/pressure.py:86-111 | The window is the last window_samples readings that arrived; lost ones neither enter nor clear it |
| PressureHistory.VerdictAt | gateway/app/modes/pressure.py:111-119 | The verdict on each input is what the last window_samples readings up to it argue for, and none for a lost reading |
| PressureHistory.EvaluatorRunsAutomaton | gateway/app/modes/pressure.py:97-147 | Over every input history the level, candidate and streak of the evaluator are those of the automaton run on these verdicts, so the theorems of Hysteresis are about the evaluator |
| Hysteresis.StretchIsLongest | gateway/app/modes/pressure.py:121-130 | The length of the final run of equal verdicts decides unanimity of the last k inputs, for every k and level |
| Hysteresis.MemoryIsTheStretch | gateway/app/modes/pressure.py:121-145 | Candidate and streak are exactly the longest final stretch of readings arguing for one level: none recorded iff that is the current level or no stretch, never the current level, always shorter than max(1, hysteresis) |
| Hysteresis.ChangesIffUnanimous | gateway/app/modes/pressure.py:121-145 | A reading changes the level if and only if the last max(1, hysteresis) inputs were all readings arguing for one and the same other level, which is the level taken |
| Hysteresis.LossNeverLowers | gateway/app/modes/pressure.py:98-107 | A lost reading never lowers the level and leaves it above LOW |
| Hysteresis.LossFailsSafe | gateway/app/modes/pressure.py:98-107 | A loss raises LOW to exactly MODERATE, leaves every other level alone and clears candidate and streak |
| Hysteresis.NotLowSoonAfterLoss | gateway/app/modes/pressure.py:98-107 | After a lost reading the level stays above LOW until at least max(1, hysteresis) further inputs, whatever they are |
| Hysteresis.ChangesArePaidFor | gateway/app/modes/pressure.py:126-145 | Changes brought about by readings cost max(1, hysteresis) readings each, over every input history |
| Hysteresis.FailSafesFollowChanges | gateway/app/modes/pressure.py:102-104 | The fail-safe raises LOW at most once more than readings changed the level |
| Hysteresis.BoundedFlapping | gateway/app/modes/pressure.py:97-147 | With n readings and any number of losses there are at most n / max(1, hysteresis) changes by readings, that plus one by the fail-safe, and twice that plus one in all |
| PressureHistory.LevelChangesIff | gateway/app/modes/pressure.py:111-145 | A reading changes the evaluator's level if and only if the windows after the last max(1, hysteresis) inputs, all of them readings, argue for one and the same other level, which is the one taken |
| PressureHistory.AfterALoss | gateway/app/modes/pressure.py:98-107 | A lost reading marks telemetry unhealthy, keeps the window, raises LOW to exactly MODERATE and leaves every other level alone |
| PressureHistory.HealthIsTheLastInput | gateway/app/modes/pressure.py:98-111 | Telemetry counts as healthy exactly while the latest input is a reading, and the last sample is the latest reading that arrived |
| PressureHistory.UnknownIsLowIff | gateway/app/modes/pressure.py:86-103 | The evaluator reports LOW with unhealthy telemetry if and only if nothing was ever ingested |
| PressureHistory.AboveLowAfterLoss | gateway/app/modes/pressure.py:98-107 | After a lost reading the evaluator stays above LOW until at least max(1, hysteresis) further inputs, whatever they are |
| PressureHistory.LevelFlapsBounded | gateway/app/modes/pressure.py:97-147 | With n readings and any number of losses the evaluator changes its level at most 2 * (n / max(1, hysteresis)) + 1 times |
| PressureHistory.ShareOfMedian | gateway/app/modes/pressure.py:34-36 | The VRAM percentage of the median sample is the median of the percentages, for odd and even windows and for every total, zero and negative included |
| PressureHistory.MoreUsedIsMoreShareIff | gateway/app/modes/pressure.py:34-36 | More memory in use is a larger percentage exactly for a positive total |
| PressureHistory.CandidateMonotone | gateway/app/modes/pressure.py:68-119 | Raising a window pointwise, memory as percentages of the newest total, never lowers the level it argues for, for every total |
| PressureHistory.MajorityCalmMeansLow | gateway/app/modes/pressure.py:34-77 | If for utilisation, VRAM percentage and temperature separately more than half the window is below the lowest threshold, the window argues for LOW, for every total |
| PressureHistory.MajorityHotIsSeen | gateway/app/modes/pressure.py:34-77 | If in any one measure more than half the window reaches a threshold, the level argued for is at least that threshold's |
| PressureHistory.MajorityMildBounds | gateway/app/modes/pressure.py:68-77 | If in every measure more than half the window is below the critical threshold the window argues for HIGH at most, and if it is below the high thresholds too for MODERATE at most |
| PressureHistory.ShortBurstIsIgnored | gateway/app/modes/pressure.py:97-147 | A burst shorter than half the window after a full window of calm readings never raises the level, whatever it was before and however extreme the burst is |
| ModePolicy.CeilingAntitoneIff | gateway/app/modes/policy.py:56-61 | The adjusted ceiling never rises with pressure, and never exceeds the base, exactly when the base is at least one |
| ModePolicy.LimitsFromSettings | gateway/app/modes/policy.py:25-49 | The per-user cap applied is the setting, or the larger of both settings in PERSONAL; outside GAMEDEV the ceiling applied is the maximum, at every level |
| ModePolicy.BonusAndPressure | gateway/app/modes/effective.py:30-51 | The priority bonus is 1000 exactly for the owner in PERSONAL and otherwise 0, and the pressure reported is LOW outside GAMEDEV |
| ModePolicy.OnlyGamedevFollowsPressure | gateway/app/modes/policy.py:25-49 | The limits a request applies vary with the pressure level exactly in GAMEDEV, and the per-user cap never does |
| ModePolicy.PersonalIsStrictPriority | gateway/app/modes/policy.py:33-42 | Under the limits PERSONAL applies, promotion takes exactly the first free-slots many of the ranked queue, or all of it |
| ModePolicy.PersonalNeverBypasses | gateway/app/modes/policy.py:33-42 | Under those limits no event promotes anybody while a better-ranked waiter stays queued |
| ModePolicy.CalmModeBounds | gateway/app/modes/effective.py:38-57 | While all requests read SERVING, or all PERSONAL, no user goes beyond its limit in the settings and all together not beyond the maximum, except for what was taken before |
| ModePolicy.CalmModeLeavesNobody | gateway/app/modes/effective.py:38-57 | From the first promotion pass on, such requests leave a waiter queued only with the maximum reached or its own user at its limit in the settings |
| ModePolicy.EvaluatorReplays | gateway/app/modes/effective.py:30-37 | In every joint history of samples, requests and scheduler events the evaluator is the replay of its inputs and the scheduler keeps its invariant |
| ModePolicy.LossLowersTheCeiling | gateway/app/modes/effective.py:30-57 | A request that has read GAMEDEV and arrives after a lost reading, with fewer than max(1, hysteresis) inputs since, applies a ceiling of at most max(1, maximum - 1) |
| ModePolicy.ClosedUntilTheNextRequest | gateway/app/modes/effective.py:54-57 | Once a request has applied a HIGH or CRITICAL policy nobody is promoted and the active count only falls until another request applies a policy, whatever samples come |
| ModePolicy.FullQueueIgnoresRecovery | gateway/app/modes/effective.py:54-57 | Over every joint history: with a full queue, neither fallen pressure nor a request that applies a higher ceiling promotes anybody or changes queue or counters, until somebody is cancelled in the queue, times out or releases |
| Limiters.Prune | gateway/app/api/security.py:28-29 | The loop drops exactly the expired front of a queue and stops at the first time still within the window |
| Limiters.PruneAgain | gateway/app/api/security.py:28-30 | On a clock that never goes back, the length of a queue pruned again and again is the number of all times ever that lie within the window |
| Limiters.GrantsAreSpaced | gateway/app/api/security.py:25-33 | With a positive maximum, any maximum + 1 consecutive grants of a key span more than the window |
| Limiters.GrantedIff | gateway/app/api/security.py:25-33 | The k-th call is granted exactly if fewer than the maximum of the earlier calls of its key were granted in the closed window that ends with it, counted over the raw log of calls |
| Limiters.KeysAreIndependent | gateway/app/api/security.py:25-33 | What a key is granted depends on its own calls only |
| Limiters.RateLimiter.Allow | gateway/app/api/security.py:25-33 | A request is refused exactly when at least the maximum of the key's earlier grants, over the complete history, lie in the closed window ending now; the deque never exceeds the maximum and other keys' deques are untouched |
| Limiters.LastCrossingDecides | gateway/app/api/security.py:47-54 | A source is blocked because of some crossing exactly when the latest one is less than the block time back |
| Limiters.CrossingsArePaidFor | gateway/app/api/security.py:56-64 | Each crossing uses up at least threshold failures of its own source |
| Limiters.CrossingIff | gateway/app/api/security.py:56-64 | A failure crosses the threshold if and only if at least threshold failures of its source, all recorded after the previous crossing and all in the closed window that ends with it, are in the complete record; for every crossing, first or later |
| Limiters.CrossingsAreWhereItCrosses | gateway/app/api/security.py:47-64 | The crossings that block a source are the times of exactly those failures, none left out and none added |
| Limiters.AuthFailThrottle.IsBlocked | gateway/app/api/security.py:47-54 | The answer is the one of the complete record: some crossing less than the block time back; deleting an expired block is unobservable for every source |
| Limiters.AuthFailThrottle.RecordFailure | gateway/app/api/security.py:56-64 | Recording keeps queue and block of every source in agreement with the complete record, and with a threshold of at least one the queue stays below it |
| Rounding.RoundDivNear | gateway/app/scheduler/lifecycle.py:19-22 | Rounding a quotient to milliseconds is off by at most half a unit, even on a tie, and keeps non-negative durations non-negative |
| JobLifecycle.Job.MarkRunning | gateway/app/scheduler/lifecycle.py:73-77 | Starting performs the row function that the theorems below are about; the constructor and the other mark methods are tied to theirs in the same way |
| JobLifecycle.JobRecorder.MarkRunning | gateway/app/scheduler/recorder.py:24-28 | The recorder leaves a terminal or missing row alone, and otherwise starts it |
| JobLifecycle.JobRecorder.MarkCompleted | gateway/app/scheduler/recorder.py:30-36 | The recorder completes only a row that is not terminal |
| JobLifecycle.JobRecorder.MarkFailed | gateway/app/scheduler/recorder.py:38-42 | The recorder fails only a row that is not terminal |
| JobLifecycle.JobRecorder.MarkCancelled | gateway/app/scheduler/recorder.py:44-51 | The recorder cancels only a row that is not terminal |
| JobLifecycle.CancelOwnJob | gateway/app/api/lara/jobs.py:68-89 | Unknown job, foreign job and terminal job are refused without a change; any other row is cancelled, as the guarded write of the interleaving model says, and exactly then the registered task is asked to stop |
| JobLifecycle.FirstTerminalWinsIff | gateway/app/api/v1/chat.py:154-191 | Over every interleaving of handler, recorder, cancel endpoints and restarts the first terminal outcome stands if and only if every unguarded write of the handler met a row that was not terminal; and then a terminal row never changes again |
| JobLifecycle.OnlyTheHandlerOverwrites | gateway/app/api/v1/chat.py:154-191 | Of all writes exactly the handler's four change a terminal row |
| JobLifecycle.TimesAreOfWrites | gateway/app/scheduler/lifecycle.py:44-107 | Over every interleaving received_at, queued_at, started_at and completed_at are the times of creation and of the last writes that queued, started and ended the job and took effect, and missing if there was none |
| JobLifecycle.DurationsAreOfWrites | gateway/app/scheduler/lifecycle.py:73-107 | The wait is measured from queueing, or creation, to the last start and the generation time of a terminal row from there to the last end, from the clock readings of those writes, in rounded milliseconds; a restart leaves none |
| JobLifecycle.OutcomeIsOfWrites | gateway/app/scheduler/lifecycle.py:44-107 | Status, error class and the figures of a row are those its last effective write, last effective failure and last effective completion carried |
| JobLifecycle.CancelCanBeLost | gateway/app/api/v1/chat.py:154-191 | Counterexample: a user's cancel between the grant and the handler's own write is overwritten by RUNNING and ends as a client disconnect |
| JobLifecycle.TimesAddUp | gateway/app/scheduler/lifecycle.py:73-107 | Over every interleaving: a terminal row has its end time, and for a terminal row that started both times are present, non-negative and add up to the time from queueing to completion to within one millisecond if and only if it was not closed by a restart |
| JobLifecycle.EndTimeMarksTerminalIff | gateway/app/api/v1/chat.py:154-181 | In every state of an interleaving completed_at is set exactly on terminal rows if and only if the handler's QUEUED and RUNNING writes never met a terminal row |
| JobLifecycle.ClosedByRestartIff | gateway/app/scheduler/reconcile.py:19-29 | A row was closed by a restart if and only if one found it queued or running, and then it is FAILED |
| JobLifecycle.RestartIsFinal | gateway/app/scheduler/reconcile.py:19-29 | A row that a restart finds queued or running is FAILED with the restart as error and its time as end in every later state |
| JobLifecycle.RestartLosesGenerationTime | gateway/app/scheduler/reconcile.py:22-25 | Counterexample: a job running when the gateway restarts gets an end and an error but no generation time |
| JobLifecycle.ReceivedStaysOpen | gateway/app/scheduler/reconcile.py:20 | A row still RECEIVED at a restart is not closed by it and never changes again except by a cancel request |
| JobLifecycle.ReconcileSettles | gateway/app/scheduler/reconcile.py:19-29 | Reconciliation makes each queued or running row FAILED with the restart as error and its time as end and nothing else changed, touches no other row, keeps completed_at equivalent to being terminal, and a second pass finds nothing to do |
| JobLifecycle.CountIsNumber | gateway/app/scheduler/reconcile.py:21-29 | The number reported is the number of rows found queued or running |
| JobLifecycle.ReconcileOrphanedJobs | gateway/app/scheduler/reconcile.py:19-29 | The loop over row objects performs that on every row and returns how many it closed |
| Sessions.CountSessions | gateway/app/analytics/rollup.py:36-44 | The number counted equals the number of distinct times without an earlier one in the preceding 300 seconds, whatever the order and repetitions of the input |
| Sessions.FiveMinutes | gateway/app/analytics/rollup.py:25-43 | Requests 300,000,000 microseconds apart are one session, one microsecond more makes two |
| Sessions.SessionsSubadditive | gateway/app/analytics/rollup.py:36-44 | Counting two lists together never gives more sessions than counting them apart |
| Sessions.OneMoreTime | gateway/app/analytics/rollup.py:36-44 | One more time changes the count by at most one, either way |
| Sessions.ReachedFromAStart | gateway/app/analytics/rollup.py:41-43 | Every time is connected to a session start in steps of at most 300 seconds |
| Sessions.StartsAreApart | gateway/app/analytics/rollup.py:41-43 | No two session starts are so connected: starts stand one for one for the connected components |
| Rollup.PercentileIsLeast | gateway/app/analytics/rollup.py:28-33 | A percentile below 100 is a member of the values, and is at most v exactly when more than that share of the values is at most v |
| Rollup.MeanIsNear | gateway/app/analytics/rollup.py:96-98 | A reported mean is within half a unit of the exact mean |
| Rollup.PercentilesComeFromJobs | gateway/app/analytics/rollup.py:80-99 | Each reported 95th percentile is the figure of some job of the group, wait and time to first token not confused, and is missing exactly when no job has the figure |
| Rollup.DaysTileTime | gateway/app/analytics/rollup.py:49-50 | The closed day windows tile time at microsecond resolution |
| Rollup.GroupJobs | gateway/app/analytics/rollup.py:63-65 | Grouping with setdefault and append gives, for exactly the groups that occur, the members in order |
| Rollup.GroupsConserve | gateway/app/analytics/rollup.py:63-95 | Any figure summed over the members of each group adds up to the figure over all jobs |
| Rollup.StatusesPartition | gateway/app/analytics/rollup.py:75-92 | Completed, failed, cancelled, rejected and unfinished jobs partition the requests of a group |
| Rollup.RollupConserves | gateway/app/analytics/rollup.py:47-105 | After a rollup the day's rows add up to exactly the day's jobs: requests, each outcome, unfinished, tokens and generation time, whatever the table held before |
| Rollup.RowsMatchGroups | gateway/app/analytics/rollup.py:67-74 | The day has a row for a group exactly if some job of that group was received that day; stale rows are gone |
| UsageRows.RowIffJobs | gateway/app/analytics/rollup.py:53-74 | The table has a row for a day, user and model exactly if some job has that user, that model and an arrival within the 24 hours of that day, and the row summarises exactly those jobs |
| UsageRows.RowIsWorkedOut | gateway/app/analytics/rollup.py:74-101 | Every column of that row from those jobs' own fields: requests, each outcome, both token sums, generation time, means within half a unit, 95th percentiles as the least figure with more than 95 of 100 at or below it, and sessions from the arrival times |
| UsageRows.GroupsAreUsersAndModels | gateway/app/analytics/rollup.py:63-105 | The groups counted are exactly the pairs of user and model with a job that day |
| Lists.WhereKeeps | gateway/app/analytics/rollup.py:75-78 | Filtering keeps an element with the property as often as it occurs and no other |
| Lists.PresentCounts | gateway/app/analytics/rollup.py:80-81 | Collecting figures takes each value as often as jobs have it |
| Lists.SumConcat | gateway/app/analytics/rollup.py:93-95 | A sum over two lists is the sum of the sums |
| Lists.SumOne | gateway/app/analytics/rollup.py:93-95 | A sum over one element is its figure |
| Lists.CountIsSize | gateway/app/analytics/rollup.py:28-33 | Counting the elements with a property gives the size of the filtered list |
| Rollup.RollupOverwrites | gateway/app/analytics/rollup.py:47-48 | A later rollup of the same day overwrites everything an earlier one wrote, whatever the jobs were then; with the same jobs it is idempotent |
| Rollup.RollupsCommute | gateway/app/analytics/rollup.py:67-72 | Rollups of different days do not affect each other, in either order |
| Rollup.Summarise | gateway/app/analytics/rollup.py:75-101 | The row computed for a group is the summary whose figures the conservation lemma is about, with its session count |
| Rollup.UsageStore.RollupDay | gateway/app/analytics/rollup.py:47-105 | Deleting the day's rows and inserting one per group in place yields exactly the rolled-up table and the number of groups |

## Left out

- HTTP routes, middleware, authentication, database sessions and transactions: a row or table is a plain object or map, and each commit is one atomic write.
- Read-then-write races inside one guarded writer: the status check and the write of a recorder method or cancel endpoint are one step, as are the columns of one commit.
- asyncio internals: lock hand-over, the order and fairness of wake-ups and `wait_for`; a deadline that has passed is an input of a turn, and a cancellation can come at any suspension point inside the waiting loop.
- A cancellation before the waiter is queued, or of a handler that has not yet written QUEUED: both happen outside the handlers modelled here.
- The process-wide sequence counter is a field of the scheduler, since a process has one scheduler.
- When a slot is released relative to a stream: for streaming requests the source releases it when the response object is returned, before its body is relayed, so the slot theorems are about slot holders and not about upstream streams or RUNNING rows.
- The awaited read of the mode row is no event of its own: an arriving request carries whatever mode it has read, one just left included, and applies it at the level then current.
- The history lemmas are about windows of at least one sample; a window of none, whose first reading raises in the source, is covered by the evaluator object alone.
- Priorities and the owner bonus enter as the effective priority of a request; role lookup and its sum with the bonus are inputs.
- `snapshot_for` and the read-only properties: projections of the modelled state.
- Floating point: samples, thresholds and limiter clocks are reals, row times are integer microseconds, means and durations are exact quotients rounded half to even.
- PercentileIsLeast: takes the share as an exact percentage, where the source multiplies by the binary fraction nearest to 0.95; the rounding error of that product is too small to change the index for any list of fewer than 10^14 values, which is not proved here.
- RecordFailure: with a threshold of zero or less every failure crosses, and the bound on the queue is stated for positive thresholds only.
- The dictionary order of groups in a rollup: rows are inserted in any order, and the resulting table is proved not to depend on it.
- The audit event of the admin cancel endpoint: its row write is a writer of the interleaving model.
- Leaderboard, retention deletes, status and metrics reports, GPU sampling by `nvidia-smi`, proxying, key handling and address hashing: plumbing, foreign calls, or one-line queries that would only add easy members.
