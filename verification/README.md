# lmkd in Dafny

lmkd is Android's low memory killer daemon. It keeps a registry of processes with their
oom_score_adj, decides from memory pressure events when to kill, picks victims, hands kills to a
small pool of reaper threads, waits for the deaths, and polls in between. This project models
that behaviour and proves properties of it that span operations, whole runs and threads.

`dafny verify dfyconfig.toml` checks the project.

## How it is laid out

| files | what they hold |
|---|---|
| `RegistryModel`, `SelectionModel`, `PsiModel`, `DaemonModel`, `ReaperModel` | behaviour on values: maps, sequences, step functions |
| `Registry`, `Selection`, `Watchdog`, `Batch`, `Monitor`, `Reaper`, `KillCount`, `Watermark`, `Wire` | the same behaviour as lmkd carries it out: linked records, arrays, loops, variables changed in place; each method is proved to be the step on values |
| `Decisions` | what the decision to kill means: which reason wins, whom it puts at risk, what is measured around a kill |
| `ScanSteps`, `PoolOrder` | what the answers of the system make of a scan; which request the pool serves next, and for whom |
| `Recency`, `PollingRuns`, `ReleaseRuns`, `DescriptorRuns`, `VictimRuns`, `ThrashRuns`, `ThrashMeasure`, `UpgradeRuns`, `UpgradeCount`, `UpgradeExact`, `UpgradeLimited`, `Safety` | what every run of the daemon keeps |
| `FineModel`, `FineRuns`, `FineScan`, `WatchdogRuns` | main thread, watchdog and pool in small steps: what every interleaving keeps, also inside a kill attempt |
| `KillRun`, `Instances` | runs from the start on which an expectation fails |
| `Time`, `CInt`, `Options` | clock arithmetic, C integer arithmetic, optional values |

The registry is one structure with two indexes. Each record hangs in a hash chain by pid and in a
circular doubly linked ring by adj. `Registry.Registry` holds both, and its ghost field `st` is
the value the two stand for: a map from pids to records and one pid sequence per slot, where
position 0 is the record slotted last and the last position is the tail of the ring. Every method
ends with both indexes holding exactly that value.

A run of the daemon is any sequence of enabled events: pressure events, polling turns, death and
failure notices, the main loop's timeout, client commands, dropped connections, and the steps of
the watchdog thread (aim, fire, mark). Readings of the system, answers of system calls and
instants of the clock are inputs of the events. A run of the reaper pool is any interleaving of the
critical sections and system calls of the main thread and the pool threads, spurious wake-ups
included.

The watchdog is armed while a handler is in progress, so its callback starts inside a handler.
What depends on that is proved on `FineModel`: there a kill attempt is several steps (test of the
flag, answers of the system, wait, signal or hand-over, removal), steps of the watchdog and of the
pool fall between any two of them, and the pool's duplicates take their numbers from the same
space as all other descriptors. Whole scans are runs of it (`ScanFine`). The runs of the daemon
keep each handler in one step, with the watchdog's steps around it; what they say of the registry
covers marks inside a handler too, since to a scan such a mark is an answer of the system
(`MarkInScan`, `MarkInSelect`).

## What the proofs turned up

Where a natural expectation does not hold, the code is modelled as it is, an instance shows the
failure, and the exact condition is proved. Names are those of the members below.

- A pidfd is closed twice when the epoll registration or the synchronous signal of a kill fails:
  the wait closes it and the removal of the record closes it again (`KillOneFds`, instances in
  `ClosedTwice`). On a run without allocation failures these are the only stray closes
  (`RunExact`).
- A registration that fails to allocate its record leaves its pidfd open (`LeftOpen`); every other
  one keeps the account exact (`ApplyPrioExact`).
- A process the watchdog has killed and marked can be signalled a second time, by an attempt that
  had looked at the flag before (`SignalledTwice`). An attempt signals if and only if the record
  was valid at its own look, the answers of the system permitting (`AttemptSignals`); a mark is
  respected exactly if it comes before that look (`RunSpent`).
- The watchdog copies a record under the lock and signals later without it. The number of the
  copied descriptor may by then stand for another process, one registered since (`ReuseRace`) or
  the victim of a kill handed to the pool (`PoolRace`): it stands for the one aimed at if and only
  if the record, or the wait for its death, has kept it since (`WatchdogReaches`). A process
  recorded below adj 0 can be hit (`DemotionRace`, `ReuseRace`), if and only if a registration of
  the process reached was accepted below 0 since the aim and not superseded (`WatchdogHits`).
- A ring that the watchdog sees empty after it met somebody there makes it dereference a null
  pointer; `GlancesSpec` says exactly when. The ring may have been emptied in between
  (`EmptiedRing`), or the look falls between proc_unslot and proc_slot of a registration that
  puts the record back (`LookInReslotting`).
- A failure notice that arrives after the wait it belongs to has timed out turns polling off
  (`LateFailureCancels`, from the start `FailureAfterTimeout`). A notice without a wait goes on
  polling if and only if some handler is still paused (`StaleNotice`). The pid in a failure notice
  is not looked at, so it may end the wait for another kill (`ForeignFailure`), exactly if its own
  was given up (`FailureEndsWait`). Every notice is that of one refused hand-over, and no wait for
  such a victim is left without its notice (`RefusalIsReported`), also with timeout 0.
- A pressure event that ends a timed-out wait can leave polling off (`PollingLeftOff`,
  `PollingLeftOffByUpgrade`), exactly when a reading fails or it upgrades the super critical
  handler without killing (`PressureEndsWait`).
- Compaction with a breached watermark is no reason to kill in the look that finds the file cache
  recovered after thrashing (`MaskedCompaction`); otherwise the first reason that holds wins
  (`HighestReasonWins`).
- The growth carried into the next window of refaults is not halved after a multiple of 64
  windows, the shift being taken modulo 64 (`WindowHalves`, instance `SixtyFourWindows`).
- The sparse kill counters are exact for all ranges if and only if at most 32 levels occurred and
  none 65536 times or more (`ExactIff`). The comment that a wrapped counter shows in the total is
  right for as long as the total has not wrapped itself (`TotalIsSum`). A range that starts below
  -1000 reads in front of the table (`Get`).
- A failed signal makes kill_one_process return the hook's answer, so the scan goes on with the
  next lower slot, while an attempt refused earlier is followed by another one in the same slot;
  `ScanGoesOn` states, from records and answers alone, how each attempt leads to the next.
- A failed io_uring completion is passed over without being marked as seen, so later completions
  of the batch are never served; after a failed read nothing is registered at all (`ReapBatch`,
  instances in `FailedCompletion`).
- get_time_diff_ms is monotone and within 1 ms of exact time but not additive
  (`DiffNotAdditive`). The timeout of the main loop is therefore met up to 1 ms
  (`NoKillBeforeRelease`), the one measured by the handler exactly (`PastWaitTimedOut`).
- At `psi_cont_event_thresh` 1 two upgrade decisions can coincide (`CoincidingUpgrades`). They
  are strictly more than (threshold - 1) windows apart on every run if and only if the threshold
  is at least 2, up to degenerate settings without a window or below threshold 1 (`StrictIff`).
  A rate limit of one event per level and window does not prevent it (`LimitedUpgrades`), except
  for a window of 1 ms (`LimitedStrictIff`).
- With more CMA pages than free pages the watermark tests need not be nested
  (`NegativeFreeNotNested`); `NestedIff` says when they are.
- The walk over the zones does not check that it stays within the skip counters;
  `CalcZoneWatermarks` fails exactly where it does not.
- A comment in statslog.h counts 88 bytes of report fields; the code writes 80 after the 4-byte
  packet type, and the project follows the code (`ReportSize`).

## What is assumed of the system

The kernel hands out descriptor numbers that are not in use. A process whose oom_score_adj file
can be written has a positive pid. The clock does not run backwards. epoll_wait sleeps at least
as long as asked when it reports no event. A completion queue returns its oldest entry until that
entry is marked as seen. The configuration is fixed during a run and within its documented ranges
(boost factor at least 1, decay between 0 and 100 percent, low-memory floor above 200).

## Model

| member | source | states |
|---|---|---|
| `Registry.PidHashBits` | lmkd.cpp:645-647 | each of the ten bits of the hash is the exclusive or of a bit of the pid and the bit eight above it, for every pid |
| `Registry.AdjslotInsert` | lmkd.cpp:1063-1070 | the new element is linked between the head and its old successor, in both directions |
| `Registry.AdjslotRemove` | lmkd.cpp:1072-1078 | the neighbours of the removed element point at each other |
| `Registry.Registry.constructor` | lmkd.cpp:4546-4549 | every ring is closed on itself, every chain is empty, and the structure represents the empty registry |
| `Registry.Registry.PidLookup` | lmkd.cpp:1053-1061 | returns the object of the pid if it is registered and null otherwise |
| `Registry.Registry.ProcSlot` | lmkd.cpp:1087-1092 | the record is linked between the head of its ring and what followed it, so it becomes the first of the ring of its adj; all other rings keep their sequence |
| `Registry.Registry.ProcUnslot` | lmkd.cpp:1095-1099 | the record is cut out of its ring at its position; all other rings keep their sequence |
| `Registry.Registry.FindInChain` | lmkd.cpp:1112-1117 | finds the record and its predecessor in the chain, or the end of the chain |
| `Registry.Registry.ChainCut` | lmkd.cpp:1122-1125 | exactly the k-th record leaves its chain; order and other chains are kept |
| `Registry.Registry.PidRemove` | lmkd.cpp:1110-1143 | removes the pid from chain and ring together, closes its pidfd unless its death is awaited, 0 or -1 as it was there or not |
| `Registry.Registry.ProcInsert` | lmkd.cpp:1101-1107 | a new record enters its chain and the front of its ring, and the two indexes agree again |
| `Registry.Registry.ClaimRecord` | lmkd.cpp:802-814 | succeeds exactly for the registrant or an unclaimed record, and then the record belongs to the client |
| `Registry.Registry.Withdraw` | lmkd.cpp:1449-1450 | between proc_unslot and proc_slot the rings are closed and hold every other record where it belongs, and the record re-slotted is in none of them: a state another thread can look at |
| `Registry.Registry.Reslot` | lmkd.cpp:1449-1451 | the record moves to the front of the ring of its new adj; everything else is kept |
| `Registry.Registry.RegisterOomAdjProc` | lmkd.cpp:1360-1453 | refines registration on the map and slot sequences, for a new and for a known pid, with every early return |
| `Registry.Registry.RegisterAgain` | lmkd.cpp:1440-1452 | a known pid is re-slotted only for its claimant; `valid` and the pidfd are kept |
| `Registry.Registry.RegisterNew` | lmkd.cpp:1415-1439 | a new pid gets a pidfd and a record; a failed pidfd_open adds nothing, a failed allocation leaves the pidfd open |
| `Registry.Registry.ApplyPrio` | lmkd.cpp:1455-1499 | invalid adj or type, a non-leader or a dead process change nothing; otherwise the process is registered |
| `Registry.Registry.CmdProcRemove` | lmkd.cpp:1508-1546 | removes the record exactly when it is registered and claimable by the client |
| `Registry.Registry.PidInvalidate` | lmkd.cpp:1145-1152 | only the `valid` flag of that record changes |
| `Registry.Registry.StopWaitForProcKill` | lmkd.cpp:3007-3045 | ends a wait and closes the awaited pidfd once; without a wait it does nothing |
| `Registry.Registry.StartWaitForProcKill` | lmkd.cpp:3066-3092 | ends an earlier wait, starts the new one, and gives it up with the descriptor if epoll refuses it |
| `Registry.Registry.UnclaimChain` | lmkd.cpp:820-826 | the records of one chain claimed by the client become unclaimed |
| `Registry.Registry.RemoveClaims` | lmkd.cpp:816-828 | exactly the records claimed by the client become unclaimed, everywhere in the table |
| `Registry.Registry.PurgeChain` | lmkd.cpp:1558-1568 | deleting while walking, exactly the claimable records of the chain are removed |
| `Registry.Registry.CmdProcPurge` | lmkd.cpp:1548-1570 | the table loop removes exactly the records claimable by the client |
| `RegistryModel.SlotOfOneAdj` | lmkd.cpp:649-650 | the 2001 slots and the adjs from -1000 to 1000 correspond one to one |
| `RegistryModel.Init` | lmkd.cpp:4546-4549 | the initial registry is well formed and owns no descriptor |
| `RegistryModel.RemoveOne` | lmkd.cpp:1110-1143 | one pid_remove is the removal of that one pid and keeps the registry well formed |
| `RegistryModel.RemoveAllStep` | lmkd.cpp:1110-1143 | removals add up: one more pid_remove extends a bulk removal by that pid, wherever it comes |
| `RegistryModel.RemoveAllWellFormed` | lmkd.cpp:1110-1143 | removing any set of records keeps the indexes in agreement and the descriptors owned |
| `RegistryModel.SweepAlong` | lmkd.cpp:2794-2799 | a walk that removes some of the records it meets has removed exactly those of the part it has seen |
| `RegistryModel.PurgeMore` | lmkd.cpp:1556-1569 | purging chain by chain is one purge of the union |
| `RegistryModel.UnclaimParts` | lmkd.cpp:816-828 | unclaiming part by part is unclaiming the union, and over all records it is remove_claims |
| `RegistryModel.RegisterWellFormed` | lmkd.cpp:1360-1453 | registration keeps pids unique, each record in the one slot of its adj, and every record's pidfd open and its own |
| `RegistryModel.UnclaimWellFormed` | lmkd.cpp:816-828 | dropping claims keeps the registry well formed |
| `RegistryModel.InvalidateWellFormed` | lmkd.cpp:1145-1152 | marking a record keeps the registry well formed |
| `RegistryModel.StopWaitWellFormed` | lmkd.cpp:3007-3045 | ending a wait keeps the registry well formed and closes nothing that is not open |
| `RegistryModel.UnslottedIsLoose` | lmkd.cpp:1095-1099 | the state between proc_unslot and proc_slot is never well formed, yet each ring holds only records of its own adj, and none of them twice |
| `Recency.RegisteredFirst` | lmkd.cpp:1360-1499 | an accepted registration records the process for the client and makes it the first of the slot of its adj; the rest of that slot, and every other slot, is what it was with the process cut out; a registration not accepted leaves records and slots as they are |
| `Recency.OrderStep` | lmkd.cpp:4671-4776 | no other event changes the order within a slot: what stays is what was there without the records gone |
| `Recency.RunNewerFirst` | lmkd.cpp:1063-1092 | on every run from the start each slot is ordered by the last accepted registration, the newest first |
| `Recency.OldestAtTail` | lmkd.cpp:2761-2763 | so the tail of a slot is the record whose last accepted registration is the oldest |
| `Recency.OldestTriedFirst` | lmkd.cpp:3221-3239 | on every run a handler that scans for tails tries first a process of the highest adj registered, and of those the one registered longest ago |
| `SelectionModel.BestIsLargest` | lmkd.cpp:2794-2814 | the running maximum is an element of maximal positive weight, or none if no weight is positive |
| `SelectionModel.BestIsFirst` | lmkd.cpp:2806-2813 | of several of the same largest weight it is the first met in the walk |
| `SelectionModel.HeaviestIsHeaviest` | lmkd.cpp:2781-2821 | an ordinary task of maximal positive size if there is one, else a preferred one of maximal positive size, else none |
| `SelectionModel.SelectWellFormed` | lmkd.cpp:3233-3234 | a selection keeps the registry well formed and offers only a record of the slot asked for |
| `SelectionModel.KillOneKeeps` | lmkd.cpp:3095-3208 | one attempt removes the record from both indexes unless the hook spared it, and keeps the registry well formed |
| `SelectionModel.KillOneOpen` | lmkd.cpp:3095-3208 | exactly which descriptors are open and what is awaited after an attempt, in every outcome |
| `SelectionModel.KillOneFds` | lmkd.cpp:3066-3092 | no attempt leaks a pidfd; it is closed a second time exactly when the attempt gets to the signal and epoll registration or signal is refused, told by the record and the answers of the system |
| `SelectionModel.DrainSlot` | lmkd.cpp:3232-3242 | the attempts in one slot end, by the shrinking registry, and leave it well formed |
| `SelectionModel.ScanDown` | lmkd.cpp:3221-3247 | the scan over the slots ends, by slot and registry size, and leaves the registry well formed |
| `SelectionModel.FindAndKill` | lmkd.cpp:3214-3254 | the whole scan, with the script fallback, leaves the registry well formed |
| `SelectionModel.DrainOrderly` | lmkd.cpp:3232-3242 | attempts within a slot: each on a record of that slot, no record twice, removed unless spared |
| `SelectionModel.ScanOrderly` | lmkd.cpp:3221-3247 | over all slots: only records at or above the floor, in non-increasing adj, none twice, removed unless spared, and how each answer leads to the next attempt |
| `SelectionModel.FindAndKillOrderly` | lmkd.cpp:3214-3254 | the same for find_and_kill_process as called, and the size it reports is that of the last attempt |
| `SelectionModel.ScanFirst` | lmkd.cpp:3221-3239 | the first attempt is on the record offered by the highest slot that offers one; no attempt means no slot offers one |
| `SelectionModel.OneVictim` | lmkd.cpp:3214-3254 | if every attempt frees pages there is at most one, on the tail or heaviest record of the highest slot offering a candidate |
| `ScanSteps.AttemptAnswered` | lmkd.cpp:3112-3207 | the kind and the result of an attempt from its record and the answers of the system: -1 for a marked or unreadable one, the hook's answer if it freed memory or the signal is refused, else the pages of the process |
| `ScanSteps.ScanDrops` | lmkd.cpp:3221-3247 | a scan only takes records out of the slots, the order of the others is kept |
| `ScanSteps.ScanGoesOn` | lmkd.cpp:3232-3246 | every attempt of a scan is answered so, one after the other, and its answer decides where the next is: the same slot after an unfit record or a negative answer, a lower slot after a refused signal with hook 0, none after freed pages |
| `ScanSteps.ScanExhausts` | lmkd.cpp:3221-3252 | a scan that comes to nothing has tried every slot it takes tails from or left it empty; one that ends with a negative answer has left the slot of its last attempt empty |
| `ScanSteps.FirstTried` | lmkd.cpp:2781-2821 | the first attempt is on the tail of the highest slot that is not empty or, where the heaviest is taken, on the first of the largest ordinary tasks, or of the preferred ones if no ordinary one has a size |
| `SelectionModel.ScanFds` | lmkd.cpp:3095-3254 | over a whole scan the open pidfds stay exactly the owned ones, and stray closes are exactly the double closes |
| `Selection.ProcAdjTail` | lmkd.cpp:2761-2763 | returns the least recently slotted record of the slot, or null |
| `Selection.SweepTurn` | lmkd.cpp:2794-2813 | one step of the walk: the next element is the right one even when the current record is removed |
| `Selection.WeighRing` | lmkd.cpp:2794-2814 | the walk removes exactly the unreadable records and keeps the running maxima of the rest |
| `Selection.ProcGetHeaviest` | lmkd.cpp:2781-2821 | deleting while walking, drops exactly the unreadable records, keeps the others in order and returns the heaviest |
| `Selection.KillOneProcess` | lmkd.cpp:3095-3208 | the attempt on the linked registry is the modelled attempt, with its result and its early exits |
| `Selection.KillInSlot` | lmkd.cpp:3232-3242 | the inner loop terminates and makes exactly the modelled attempts |
| `Selection.FindAndKillProcess` | lmkd.cpp:3214-3254 | the scan on the linked registry terminates and makes exactly the modelled attempts, with the size it returns |
| `Watchdog.UpToFirstIsPrefix` | lmkd.cpp:2961-2978 | what is tried is a prefix of the candidates that ends with the first delivered signal |
| `Watchdog.WalkComplete` | lmkd.cpp:2932-2955 | the walk meets exactly the valid records ahead of it |
| `Watchdog.WalkSorted` | lmkd.cpp:2766-2778 | the walk goes down in adj and, within a slot, from the tail to the head, meeting nobody twice |
| `Watchdog.OrderSpec` | lmkd.cpp:2957-2979 | the watchdog's order: exactly the valid records with adj >= 0, each once, descending adj, tail to head |
| `Watchdog.ProcAdjPrev` | lmkd.cpp:2766-2778 | at any moment the lock is free, a re-slotting in progress included: the record before the given pid, the head after the last one, null for a pid not in the ring; a null dereference exactly for an empty ring |
| `Watchdog.FindVictim` | lmkd.cpp:2932-2955 | one look at any registry the lock can show, a record in no ring included: the tail for a fresh or vanished pid, else the record before it, with a copy of its fields; nobody at the end; a null dereference exactly for a pid to go on from in an empty ring |
| `Watchdog.LookFinds` | lmkd.cpp:2932-2955 | a look finds a record as it is there, in the slot looked at |
| `Watchdog.LookGoesOn` | lmkd.cpp:2932-2955 | where a look goes on: at the tail if it starts there or the record met last is gone, else with the record before that one; nobody is left once that was the first of the ring |
| `Watchdog.GlancesSpec` | lmkd.cpp:2957-2979 | whatever the registry becomes between two looks, and wherever in a re-slotting they fall: slots go down, every record found is current and at or above adj 0, and a null dereference happens exactly when the look before met somebody in a ring that this look sees empty |
| `Watchdog.EmptiedRing` | lmkd.cpp:2766-2778 | the only record of a ring is met and removed: the next look dereferences null |
| `Watchdog.LookInReslotting` | lmkd.cpp:1449-1451 | the only record of a ring is met and registered again at the same adj: a look between proc_unslot and proc_slot dereferences null, although the ring holds the record before and after |
| `Watchdog.SignalFirst` | lmkd.cpp:2957-2979 | the loop terminates, tries the candidates in that order and stops at the first delivered signal |
| `Watchdog.WatchdogCallback` | lmkd.cpp:2957-2979 | on a registry that does not change meanwhile, exactly the record signalled successfully is invalidated, nothing else changes |
| `ReaperModel.AdmissionStep` | reaper.cpp:196-220 | every step keeps the counter equal to queued plus in-flight, within the pool, with enough threads awake |
| `ReaperModel.AccountedStep` | reaper.cpp:106-136 | every step keeps each request queued, held by one thread, or finished, with what was done to it so far |
| `ReaperModel.DupsStep` | reaper.cpp:205-217 | every step keeps the open duplicates those of unfinished requests; only a failed dup is closed in vain |
| `ReaperModel.RunKeeps` | reaper.cpp:196-266 | all of this over every interleaving, spurious wake-ups included |
| `ReaperModel.PoolSafety` | reaper.cpp:196-266 | from the start of the pool: counter, bound, awake threads, at most one dequeue, exactly one of signal and failure write, owned duplicates |
| `ReaperModel.RemainingStep` | reaper.cpp:106-136 | each step on a request brings it one step nearer its end; only a submission adds work |
| `ReaperModel.Conservation` | reaper.cpp:106-136 | over every run, steps made plus steps left are five per accepted request |
| `ReaperModel.PoolProgress` | reaper.cpp:241-257 | while a request is unfinished some step on a request is enabled; when none is left all are finished and the counter is 0 |
| `ReaperModel.InitReady` | reaper.cpp:158-194 | the invariant holds for any number of threads that could be created |
| `PoolOrder.TargetKept` | reaper.cpp:196-220 | on every run a request keeps the pid, the uid and the duplicate it was accepted with |
| `PoolOrder.NewestTaken` | reaper.cpp:241-252 | on every run a thread that dequeues gets the request accepted last of all still queued, with its target, and the others stay queued |
| `PoolOrder.HeldTarget` | reaper.cpp:106-117 | whatever thread holds a request, the process it signals or reports is the one the request was accepted for |
| `Reaper.Reaper.constructor` | reaper.cpp:158-194 | a pool of the threads created, with an empty queue |
| `Reaper.Reaper.AsyncKill` | reaper.cpp:196-220 | refuses without pidfd, threads or capacity and changes nothing then; otherwise appends the target's pid and uid with the duplicate to the queue and wakes one thread |
| `Reaper.Reaper.Kill` | reaper.cpp:222-239 | which of the three ways is taken, what is returned, and that only a handed-over kill changes the pool |
| `Reaper.Reaper.DequeueRequest` | reaper.cpp:241-252 | sleeps exactly on an empty queue; otherwise takes the last request off it and leaves the others as they are |
| `Reaper.Reaper.RequestComplete` | reaper.cpp:254-257 | gives back the capacity of the request just closed |
| `Reaper.Reaper.NotifyKillFailure` | reaper.cpp:259-266 | one write of the pid to the pipe |
| `Reaper.Reaper.Serve` | reaper.cpp:106-136 | the thread body: signal or report, close, complete, each once, and the thread is free again |
| `Reaper.Reaper.Turn` | reaper.cpp:106-136 | a whole turn of the loop: the last request of the queue is served, and its pid is written to the pipe exactly if its signal is refused |
| `Reaper.ServedOnce` | reaper.cpp:106-136 | the tally of the request after the body is exactly one dequeue, one signal or one report, one close, one completion |
| `KillCount.KillCounters.constructor` | lmkd.cpp:4551-4551 | all levels unassigned, all counters and the total zero |
| `KillCount.KillCounters.Inc` | lmkd.cpp:1578-1601 | the tables represent the history extended by this kill, wrap-around and the 32-level limit included |
| `KillCount.KillCounters.Get` | lmkd.cpp:1603-1624 | the sum of what the counters show over the range, 0 for an empty range, the total above the largest adj; a read in front of the table exactly for a non-empty range that starts below -1000 |
| `KillCount.IndexOf` | lmkd.cpp:658-668 | distinct levels have distinct counters, the used indices are exactly the first ones, and an unassigned level reads 0xFF |
| `KillCount.TrackedIffFew` | lmkd.cpp:1582-1592 | every level has a counter if and only if at most 32 levels occurred |
| `KillCount.ExactIff` | lmkd.cpp:1603-1624 | every range query is exact if and only if at most 32 levels occurred and none 65536 times or more |
| `KillCount.ThirtyThirdLevel` | lmkd.cpp:1584-1592 | a kill at a 33rd level is in no counter |
| `KillCount.TotalIsSum` | lmkd.cpp:1594-1600 | while the 32-bit total has not wrapped it equals the sum of the counters in use if and only if at most 32 levels occurred and none 65536 times or more: a wrapped or missing counter is detectable, and only that is |
| `Watermark.SkipUnreported` | lmkd.cpp:3466-3466 | stops at the first reported skip counter, or past the last one exactly if none is reported |
| `Watermark.WalkTurn` | lmkd.cpp:3463-3481 | which zone counts, by its own counter or the next one reported, and where the walk goes on after it |
| `Watermark.AddZone` | lmkd.cpp:3463-3499 | the zone is added exactly when it is present and its skip counter has not moved, and the index moves on as in the source; it fails exactly when a counter past the last is read, which an absent zone never does |
| `Watermark.CalcZoneWatermarks` | lmkd.cpp:3448-3510 | sums and maxima over exactly the eligible zones of all nodes, with the protection added, unless the walk of some node leaves the skip counters |
| `Watermark.MaxIsMax` | lmkd.cpp:3495-3498 | each maximum is an upper bound that some eligible zone attains, or zero |
| `Watermark.AggregateOrdered` | lmkd.cpp:3502-3505 | min <= low <= high is preserved and none of the three watermarks of an eligible zone, with its protection, exceeds the aggregate |
| `Watermark.AggregateGrows` | lmkd.cpp:3463-3505 | what one more eligible zone adds: its pages, its file pages where MGLRU is off or it is at or below its boosted high mark, and what its marks and its protection have above the largest so far |
| `Watermark.Nested` | lmkd.cpp:3374-3385 | for non-negative free pages and boost >= 1 the three breach tests are nested |
| `Watermark.LowestBreached` | lmkd.cpp:3374-3400 | the result is the lowest breached watermark, for each level in both directions |
| `Watermark.MonotoneInPages` | lmkd.cpp:3358-3401 | more free or cached pages never give a lower watermark |
| `Watermark.BoostNeverMilder` | lmkd.cpp:3378-3385 | for fixed totals a larger boost never gives a milder watermark |
| `Watermark.NestedIff` | lmkd.cpp:3364-3385 | for any number of free pages less CMA pages, the tests are nested for every amount of cached pages if and only if they are for the largest that breaches the min mark |
| `Watermark.NegativeFreeNotNested` | lmkd.cpp:3364-3364 | with more CMA than free pages the tests are not nested: an instance |
| `Time.DiffWithin1Ms` | lmkd.cpp:1182-1186 | the computed difference is less than 1 ms from the exact one |
| `Time.DiffMonotone` | lmkd.cpp:1182-1186 | a later end or an earlier start never makes it smaller |
| `Time.DiffNotAdditive` | lmkd.cpp:1182-1186 | it is not additive: 1 ms more can show as 2 ms |
| `Time.MeasuredMoreThan` | lmkd.cpp:4657-4657 | more than w ms measured means more than w ms passed |
| `CInt.ToInt32Exact` | lmkd.cpp:3850-3852 | an int keeps the value stored into it exactly when it is within 32 bits |
| `PsiModel.DecideMin` | lmkd.cpp:3878-3999 | no branch of the decision makes the floor negative or takes back a reason |
| `PsiModel.VerdictMin` | lmkd.cpp:3855-4021 | the floor is at least 0 on every path, the repeated first pass with its left-over values included |
| `PsiModel.PrepareMin` | lmkd.cpp:3697-4021 | the same from the raw readings, and the handler touches nothing of the counter but its flag |
| `Decisions.HighestReasonWins` | lmkd.cpp:3878-3999 | a look decides for the first reason of a fixed order whose own condition holds, and for none exactly if none holds, if and only if that reason is not compaction masked by the file cache check |
| `Decisions.MaskedCompaction` | lmkd.cpp:3973-3991 | a look in which compaction is masked: no kill, though without the file cache check there is one |
| `Decisions.FreshLook` | lmkd.cpp:3878-3999 | the lowest adj each reason puts at risk, and for which reasons the limit is cut and the file cache is checked on |
| `Decisions.SecondLook` | lmkd.cpp:4010-4016 | a second look never takes a kill back, takes over the reason of a fresh look unless that is low memory alone, and never replaces a floor by 0 |
| `Decisions.LooksVerdict` | lmkd.cpp:3855-4016 | a kill is decided exactly if the first look decides one, a second look precedes only the first kill ever, and which floor results |
| `Decisions.ScansDownTo` | lmkd.cpp:3862-4024 | a handler that kills scans down to adj 0 if the last look that could tell found the system stalled, else to the floor of its looks |
| `Decisions.CacheCounts` | lmkd.cpp:3335-3372 | cached pages are taken as free only with a percentage configured, never in compaction, and only below the critical level or by polling at it |
| `Decisions.HandleLooks` | lmkd.cpp:3695-4016 | a handler that comes to a verdict reaches it by these looks at what it measured |
| `Decisions.SeenIs` | lmkd.cpp:3695-4007 | what a handler looks at beside thrashing, reading by reading: file cache in kB, stall time, compaction since the last cycle, the limit in force |
| `Decisions.FirstKillOnce` | lmkd.cpp:4008-4016 | on every run the next kill decided is the first ever, which is looked at twice, if and only if none was decided before |
| `Decisions.PerceptibleSpared` | lmkd.cpp:3924-3966 | a handler tries an application at adj 200 or below only if the system is stalled or its reason is none of those that spare them |
| `Decisions.KillResetsThrashing` | lmkd.cpp:3696-3704 | the first cycle after a kill that freed memory measures no thrashing and keeps the limit |
| `Decisions.NoThrashKillAfterKill` | lmkd.cpp:3696-3967 | so it kills nobody for thrashing and does not cut the limit, the second look included |
| `Decisions.WindowHalves` | lmkd.cpp:3824-3838 | of the growth of the window left at most half is carried over if and only if it was not a single window at or over the limit and the windows passed are no multiple of 64 |
| `Decisions.SixtyFourWindows` | lmkd.cpp:3824-3838 | the instance: after 64 windows a growth of 100 percent, below the limit, is carried over undiminished |
| `Decisions.StallReportedOnce` | lmkd.cpp:3735-3783 | told by vmstat, no stall is reported twice for the same counters, and a throttled stall hidden by direct reclaim is reported by the next cycle |
| `Decisions.StallByListener` | lmkd.cpp:3735-3783 | told by a listener: direct reclaim and kswapd as it says, throttling by its counter where no direct reclaim is seen; a throttled stall is reported once and not lost behind direct reclaim |
| `Decisions.BoostAfterHandler` | lmkd.cpp:4028-4033 | an event at or above the polled level restores the boost; a kill that frees memory takes it one up for a process not responding or throttled reclaim and one down for any other reason, within 1 and the factor; nothing else changes it |
| `Decisions.CycleAsks` | lmkd.cpp:4047-4083 | exactly when a cycle asks for an upgrade or a start, when it lowers the boost, and how far away the next turn is |
| `Monitor.Monitor.KillAndAccount` | lmkd.cpp:4018-4044 | the scan on the linked registry with its bookkeeping |
| `Monitor.Monitor.PassWait` | lmkd.cpp:3669-3695 | the cycle is skipped while a kill is in progress, otherwise the wait ends first |
| `Monitor.Monitor.HandlePressure` | lmkd.cpp:3584-4044 | the handler up to its end label is the modelled body, every early return included |
| `Monitor.Monitor.MpEventPsi` | lmkd.cpp:3584-4084 | the whole handler on the linked registry is the modelled cycle |
| `Monitor.Monitor.OnPressure` | lmkd.cpp:4766-4772 | counting the event, running the handler and applying its request is the modelled step |
| `Monitor.Monitor.OnPollTurn` | lmkd.cpp:4707-4710 | a polling turn is the modelled step |
| `Monitor.Monitor.OnNotice` | lmkd.cpp:3047-3064 | a death or failure notice ends the wait and resumes polling as modelled |
| `Monitor.Monitor.OnLoopTimeout` | lmkd.cpp:4712-4725 | the main loop's own timeout ends the wait and resumes paused polling |
| `Monitor.Monitor.OnCommand` | lmkd.cpp:1501-1570 | a client command changes registry and polling as modelled |
| `Monitor.Monitor.OnHangup` | lmkd.cpp:830-845 | a dropped connection gives up the client's claims |
| `DaemonModel.HandleReg` | lmkd.cpp:3669-4024 | whatever the readings, the registry sees at most the end of a wait and one scan from a floor >= 0 |
| `DaemonModel.CyclePoll` | lmkd.cpp:4047-4072 | a handler that leaves a wait on asks for a pause, and only then; a start never lowers the polled level |
| `DaemonModel.EarlyReturn` | lmkd.cpp:3642-3695 | an early return leaves the wait as it was or has ended it |
| `DaemonModel.StepWellFormed` | lmkd.cpp:4671-4776 | every step of either thread keeps the registry well formed |
| `DaemonModel.RunWellFormed` | lmkd.cpp:4671-4776 | so every state of every run is well formed |
| `PollingRuns.RunPauses` | lmkd.cpp:4671-4776 | in every reachable state waiting for a death means polling is off and a handler is paused |
| `PollingRuns.StepPauses` | lmkd.cpp:4590-4635 | every step keeps that |
| `PollingRuns.NoticeResumes` | lmkd.cpp:3047-3064 | a notice or the loop's timeout that ends a wait restarts polling of the paused handler |
| `PollingRuns.PressureEndsWait` | lmkd.cpp:4047-4072 | a pressure event in a wait leaves neither a wait nor polling if and only if the wait timed out and a reading fails, or it upgrades a super critical handler and its own attempts leave no death to wait for |
| `PollingRuns.ScanAwaits` | lmkd.cpp:3066-3206 | whether a death is awaited after a scan follows from its attempts alone: the last signal decides |
| `PollingRuns.HandleAwaits` | lmkd.cpp:3669-4024 | the same for a handler that gets past an earlier wait |
| `PollingRuns.EarlyIff` | lmkd.cpp:3642-3861 | the handler returns early exactly when a reading it asks for fails |
| `PollingRuns.PolledLevelKept` | lmkd.cpp:4600-4633 | outside resumption a polled level ends only by pause or expiry and never falls below the smaller of itself and CRITICAL |
| `PollingRuns.PollStep` | lmkd.cpp:4590-4635 | which level is polled after a start, an upgrade or a resumption, and that the stretch of polling is timed from there |
| `PollingRuns.PollingLasts` | lmkd.cpp:4616-4628 | on every run an event that asks for nothing ends polling, and restores the boost, if and only if it comes more than a window after the event that began the stretch |
| `PollingRuns.StaleNotice` | lmkd.cpp:3053-3064 | a notice without a wait goes on polling if and only if a handler is still paused |
| `PollingRuns.LateFailureCancels` | lmkd.cpp:4712-4725 | in every waiting state a failure reported after the loop's timeout leaves polling off |
| `ReleaseRuns.PastWaitTimedOut` | lmkd.cpp:3669-3682 | a cycle gets past a wait only when the measured time has reached a non-zero timeout |
| `ReleaseRuns.HeldBackBy` | lmkd.cpp:2983-3005 | without pidfds a kill holds cycles back only while its process is alive, with them until the wait has ended; the timeout, if there is one, lets them go on |
| `ReleaseRuns.HeldStep` | lmkd.cpp:4712-4719 | every step without a notice keeps the wait or comes after the timeout, and signals only if the instant its handler read is after it |
| `ReleaseRuns.RunHeldBack` | lmkd.cpp:3669-3682 | along every run without a notice the wait goes on or its timeout has passed |
| `ReleaseRuns.HandleKillTime` | lmkd.cpp:3128-3206 | a handler that gets past an earlier wait and leaves one on has made a kill, and last_kill_tm is the instant it read |
| `ReleaseRuns.WaitIsOfKill` | lmkd.cpp:3066-3092 | on every run from a state without a wait, a wait that is on was started by a kill of some event, has been on ever since, and last_kill_tm is the instant that event's handler read |
| `ReleaseRuns.NoKillBeforeRelease` | lmkd.cpp:3669-3682 | after an event that makes a kill and starts its wait, along every run without a notice, a handler signals only if the instant it read before is after the timeout of that kill; with timeout 0 nobody is signalled |
| `DescriptorRuns.ApplyPrioExact` | lmkd.cpp:1417-1439 | a registration keeps the descriptors exact if and only if it does not fail to allocate its record |
| `DescriptorRuns.HandleExact` | lmkd.cpp:3128-3206 | a handler keeps them exact and its stray closes are exactly its double closes |
| `DescriptorRuns.RunExact` | lmkd.cpp:1128-1134 | over every run without allocation failures the open pidfds are exactly those of live records plus the awaited one, and each is closed once but for the double closes |
| `VictimRuns.HandleVictims` | lmkd.cpp:3112-3207 | records only leave, and every attempt is on a record with adj >= 0 as it stands in the registry |
| `VictimRuns.StepSpares` | lmkd.cpp:3221-3239 | every step: a handler tries only records that say adj >= 0 at that moment, the watchdog fires on a copy that said so when made |
| `VictimRuns.RunSparesNegative` | lmkd.cpp:3221-3239 | the same on every run; whom the watchdog's copy reaches is in WatchdogRuns |
| `VictimRuns.MarksAfterShot` | lmkd.cpp:2957-2979 | the watchdog goes on to mark a record exactly after a shot on a copy that was valid and that is delivered |
| `VictimRuns.HistogramInRange` | lmkd.cpp:957-968 | the histogram index is within 0..20 exactly for adj above -50, so for every victim |
| `FineModel.RegStep` | lmkd.cpp:3095-3208 | every small step of the three parties, also inside an attempt, keeps the registry well formed, up to the victim's own descriptor once its wait is set up |
| `FineModel.TabStep` | reaper.cpp:196-220 | every small step keeps the open descriptor numbers those of the two tables, which share none; a record's descriptor refers to its process and is never a duplicate's number, so the second close of a failed kill never closes a duplicate |
| `FineModel.JobStep` | reaper.cpp:106-136 | every small step keeps each failure in the pipe that of one refused hand-over, there once, and present while its victim is awaited |
| `FineModel.RunInv` | lmkd.cpp:3095-3208 | so on every interleaving of main thread, watchdog and pool |
| `FineRuns.AttemptSignals` | lmkd.cpp:3112-3156 | on every interleaving an attempt signals its victim if and only if the record was valid at the attempt's own test and the answers of the system permit; a mark is respected exactly if it comes before that test |
| `FineRuns.StepSpent` | lmkd.cpp:3112-3114 | a small step after the mark: the record stays marked until it is gone, the watchdog does not signal through it, and the main thread only in an attempt past its test |
| `FineRuns.RunSpent` | lmkd.cpp:2973-2974 | the same along every interleaving, whoever registers the process again: the main thread signals only in the attempt that had passed its test before the mark |
| `FineRuns.MarkedIsSpent` | lmkd.cpp:2973-2974 | what the watchdog marks is such a record |
| `FineRuns.SignalledTwice` | lmkd.cpp:3112-3156 | from the start: the watchdog kills and marks the victim of an attempt that is past its test, and the attempt signals it again |
| `FineRuns.SameWait` | lmkd.cpp:3007-3045 | on every interleaving a wait that is on has been on since its attempt set it up |
| `FineRuns.FailureEndsWait` | lmkd.cpp:3053-3064 | a failure handled is that of one refused hand-over and is handled once; it ends whatever wait is on: its own exactly if that was on ever since, else that of another kill |
| `FineRuns.RefusalIsReported` | reaper.cpp:113-117 | while the victim of a refused hand-over is awaited its failure is in the pipe, and handling it ends the wait, with any timeout or none |
| `FineRuns.ForeignFailure` | lmkd.cpp:3059-3063 | from the start: the failure of a kill given up by timeout ends the wait for another kill |
| `FineScan.KillOneFine` | lmkd.cpp:3095-3208 | an attempt nobody interferes with takes small steps from the same registry to the same registry as the attempt on values |
| `FineScan.ScanFine` | lmkd.cpp:3221-3247 | so does every scan: runs of whole handlers are runs in small steps |
| `FineScan.MarkInScan` | lmkd.cpp:3112-3114 | for the registry a mark before the test is the same as an unreadable process, and a mark on another record as well comes after the attempt |
| `FineScan.MarkInSelect` | lmkd.cpp:2781-2821 | a mark does not change what is selected |
| `WatchdogRuns.HeldOrClosed` | lmkd.cpp:1128-1134 | whatever small step is made, a descriptor held for a process, by its record or by the wait for its death, stays held exactly if it stays open |
| `WatchdogRuns.OpeningKept` | lmkd.cpp:1128-1134 | on every interleaving a descriptor number held for a process stands for the same opening if and only if it was held for it in every state since; let go it is closed or stands for an opening made since, for a record or for the pool |
| `WatchdogRuns.WatchdogReaches` | lmkd.cpp:2953-2970 | on every interleaving from an aim, the descriptor the watchdog fires through stands for the opening it stood for if and only if the target's record, or the wait for its death, has kept it since; else it reaches nobody, or whom a later opening was made for: a process registered since or the victim of a kill handed to the pool since |
| `WatchdogRuns.NegativeStep` | lmkd.cpp:1360-1499 | a small step leaves a process below adj 0 if and only if it accepts a registration of it below 0, or it was below, is still recorded and no registration was accepted |
| `WatchdogRuns.NegativeRun` | lmkd.cpp:1360-1499 | so on every interleaving a process gets below adj 0 exactly by an accepted registration below 0 that nothing has superseded |
| `WatchdogRuns.OpeningsNotNegative` | reaper.cpp:205-217 | every descriptor opened during a run, the pool's duplicates included, was opened for a process not recorded below adj 0 at that moment |
| `WatchdogRuns.WatchdogHits` | lmkd.cpp:2957-2979 | on every interleaving from an aim, the watchdog's signal reaches a process recorded below adj 0 if and only if it reaches one for which such a registration was accepted since the aim |
| `WatchdogRuns.DemotionRace` | lmkd.cpp:2953-2970 | any accepted registration of the target below 0 between aim and shot: the target is hit all the same |
| `WatchdogRuns.ReuseRace` | lmkd.cpp:1128-1134 | from the start: the target is removed and its descriptor number given to a process below 0: that one is hit |
| `WatchdogRuns.PoolRace` | reaper.cpp:211-213 | from the start: the number goes to the pool's duplicate for another victim: that one is hit |
| `VictimRuns.ClaimStep` | lmkd.cpp:1441-1448 | no event of another client changes or removes a claimed record; only a kill removes it |
| `VictimRuns.ClaimantKept` | lmkd.cpp:802-845 | the claim ends only with the record or with the connection of the registrant |
| `VictimRuns.RunClaim` | lmkd.cpp:802-828 | along every run in which the registrant's connection stays open its record stays claimed by it, and every event of anybody else leaves it as it is or is a handler that removes it |
| `VictimRuns.PurgeExact` | lmkd.cpp:1558-1568 | a purge leaves exactly the records claimed by somebody else |
| `VictimRuns.HangupFrees` | lmkd.cpp:816-845 | a dropped connection frees exactly the records of its client, and changes nothing else |
| `VictimRuns.FreedForOthers` | lmkd.cpp:802-814 | a registration of such a process by another client, not accepted before, is accepted then and gives the record to that client |
| `ThrashRuns.ThrashSound` | lmkd.cpp:3811-3853 | with forward counters nothing measured is negative, the limit is reset with the window and the maximum kept up |
| `ThrashMeasure.GrowthIsPercent` | lmkd.cpp:3846-3847 | the growth is the percentage of the cache recorded that was refaulted since, cut towards zero, by its two bounds |
| `ThrashMeasure.WindowKept` | lmkd.cpp:3840-3844 | on every run the window is that of the reading that opened it, until the next is opened |
| `ThrashMeasure.MeasureGrows` | lmkd.cpp:3846-3850 | on every run, between two openings, thrashing is what was left at the first and the percentage of the cache as it was then that was refaulted since |
| `ThrashMeasure.MeasureCarries` | lmkd.cpp:3825-3850 | on every run, a cycle more than a second after the last opening measures what that window leaves: all of its growth if one window has passed and the limit was reached, else the growth halved once a window |
| `ThrashMeasure.MeasureRises` | lmkd.cpp:3846-3850 | so within a window the measure never falls while the counter runs forward |
| `ThrashMeasure.LimitAfter` | lmkd.cpp:4033-4039 | the limit a handler leaves: that which it saw or, after a kill for thrashing that freed memory, the part the decay leaves, rounded down |
| `ThrashRuns.CutBound` | lmkd.cpp:4033-4039 | one cut leaves at most its share of the bound |
| `ThrashRuns.BoostSound` | lmkd.cpp:4028-4032 | the boost stays between 1 and the configured factor |
| `ThrashRuns.StepSound` | lmkd.cpp:3634-3637 | every step keeps boost, limit and maximum within bounds, and thrashing is never negative |
| `ThrashRuns.RunSound` | lmkd.cpp:4619-4626 | the same over every run: 1 <= boost <= factor, 0 <= limit <= pct*((100-d)/100)^k, the maximum since the last kill, and no thrashing measured is negative |
| `UpgradeRuns.CountSpaced` | lmkd.cpp:4656-4665 | counted events are each more than a window after the one before and each use up the flag |
| `UpgradeCount.HandleFlag` | lmkd.cpp:3855-3868 | the flag is raised exactly by a handler below the critical level that finds a stall in direct reclaim and gets to look at the zones |
| `UpgradeCount.RunTracks` | lmkd.cpp:4637-4669 | on every run the counter's times and its flag are what the events say: the last event of each level, the last event counted, a stall seen since |
| `UpgradeCount.CountIs` | lmkd.cpp:4654-4668 | on every run the count is the number of events counted since the last upgrade, the last gap of one and a half windows at a level, or the last event due without a stall seen |
| `UpgradeCount.UpgradeIsContiguous` | lmkd.cpp:4060-4065 | on every run an upgrade has as many counted events behind it as the threshold asks for, with no gap between them and a stall seen whenever one was due |
| `UpgradeRuns.CycleCount` | lmkd.cpp:4062-4065 | an upgrade is decided only at the threshold, and resets the counter |
| `UpgradeRuns.UpgradesApart` | lmkd.cpp:4637-4669 | two successive upgrade decisions are at least (threshold - 1) windows apart, for any threshold, and strictly for the settings of StrictIff |
| `UpgradeRuns.RunUpgradesApart` | lmkd.cpp:4637-4669 | the same on every run from the start |
| `UpgradeExact.StrictIff` | lmkd.cpp:4637-4669 | on every run successive upgrades are strictly more than (threshold - 1) windows apart if and only if the threshold is at least 2, or is 1 without a window, or is below 1 with one |
| `UpgradeExact.CoincidingUpgrades` | lmkd.cpp:4654-4668 | at threshold 1, for every window, a run from the start that upgrades twice in one instant, events arriving at any rate |
| `UpgradeExact.UpgradesAtOnce` | lmkd.cpp:4060-4065 | below threshold 1 without a window, a run that does so |
| `UpgradeLimited.LimitedUpgrades` | lmkd.cpp:4600-4606 | the same with events of one level at least a window apart, for every window of 2 ms and more: the counted event kills, another falls in the wait, and the death lets a poll and the next event upgrade together |
| `UpgradeLimited.LimitedStrictIff` | lmkd.cpp:4637-4669 | on runs with that rate limit successive upgrades are strictly apart if and only if they are on all runs, or threshold and window are both 1 |
| `UpgradeLimited.RunUncounted` | lmkd.cpp:4654-4668 | within the rate limit and with a window of 1 ms no event is ever counted |
| `UpgradeRuns.RunSpaced` | lmkd.cpp:4654-4668 | on every run the events counted equal the raisings of the flag, less one still raised |
| `Safety.DaemonSafety` | lmkd.cpp:4671-4776 | all run invariants together, from the start of the daemon |
| `Instances.ClosedTwice` | lmkd.cpp:3086-3092 | a refused epoll registration or signal closes the descriptor of a registered process twice: an instance of each |
| `Instances.LeftOpen` | lmkd.cpp:1419-1432 | a failed allocation leaves a descriptor that nobody owns: an instance |
| `Instances.PollingLeftOff` | lmkd.cpp:4047-4065 | from the start: a kill is awaited, and an event after its timeout whose vmstat reading fails leaves neither wait nor polling |
| `Instances.PollingLeftOffByUpgrade` | lmkd.cpp:4047-4065 | from the start: an event at the super critical level does so by its upgrade, with every reading at hand |
| `Instances.FailureAfterTimeout` | lmkd.cpp:4712-4725 | from the start: the wait times out in the main loop, polling resumes, and the failure reported later turns it off |
| `KillRun.KilledFromStart` | lmkd.cpp:3584-4084 | the run they start from: a process registers, a breached watermark kills it, and its death is awaited with polling paused |
| `Batch.RegisterOneLookup` | lmkd.cpp:1360-1453 | one registration changes only the record of its own pid, and how |
| `Batch.BatchLookup` | lmkd.cpp:1849-1877 | after a batch of distinct pids every process has the record its request asks for, others are untouched |
| `Batch.AnyOrder` | lmkd.cpp:1849-1877 | any two completion orders leave the same records, descriptor numbers aside, and the same slot members |
| `Batch.SameOrderSameSlots` | lmkd.cpp:1849-1877 | completions in the same order leave the slots in the same order |
| `Batch.OneByOneIsInOrder` | lmkd.cpp:1901-1901 | handling one by one is registering the acceptable requests in the order of the packet |
| `Batch.UringAgrees` | lmkd.cpp:1889-1903 | the io_uring path agrees with the one-by-one path for any completion order, and in slot order for the submission order |
| `Batch.RegisterCompleted` | lmkd.cpp:1849-1877 | the loop over the completions on the linked registry registers them in that order |
| `Batch.ReapCompletions` | lmkd.cpp:1849-1866 | a loop over the queue serves exactly the completions before the first failure, which stays at its head |
| `Batch.ReapBatch` | lmkd.cpp:1774-1877 | over both loops a process is registered if and only if every read succeeded and every write up to its own did |
| `Batch.FailedCompletion` | lmkd.cpp:1780-1784 | one failed write loses the later ones, one failed read all: what is registered in an instance of each |
| `Wire.DecEnc` | statslog.cpp:253-275 | every number that fits its width is read back |
| `Wire.EncDec` | statslog.cpp:253-275 | every group of bytes is the encoding of the number it is read as |
| `Wire.MostSignificantFirst` | statslog.cpp:253-275 | the bytes of a number are its digits to base 256, the most significant first |
| `Wire.UnpackPack` | statslog.cpp:299-338 | every field of a packed sequence is read back, whatever follows |
| `Wire.PutNumber` | statslog.cpp:253-275 | exactly `width` bytes at the index become the big-endian number, the rest of the buffer is kept |
| `Wire.PutWord` | include/lmkd.h:89-100 | appends one network-order word to the packet |
| `Wire.GetWord` | include/lmkd.h:79-83 | reads one network-order word |
| `Wire.SetTarget` | include/lmkd.h:89-100 | the packet holds the command and all targets, nothing beyond its size is touched |
| `Wire.GetTarget` | include/lmkd.h:79-83 | reads the two words of the target |
| `Wire.TargetRoundTrip` | include/lmkd.h:79-100 | every target packed is read back |
| `Wire.SetProcs` | include/lmkd.h:367-381 | the packet holds the command and all records in order, nothing beyond its size is touched |
| `Wire.GetProcs` | include/lmkd.h:345-361 | rejects exactly the field counts that are not whole records, else reads them all |
| `Wire.GetProcPrio` | include/lmkd.h:124-131 | reads the four fields, taking a missing type as an application |
| `Wire.ProcsRoundTrip` | include/lmkd.h:345-381 | every record packed is read back, unsigned uids included |
| `Wire.PackString` | statslog.cpp:285-297 | length, name cut to 127 bytes and zero padding are written, and the index moves past the terminator |
| `Wire.NameRoundTrip` | statslog.cpp:285-297 | the name is read back cut to 127 bytes, with a zero after it |
| `Wire.ReportSize` | statslog.cpp:299-336 | the fixed part of the report takes 84 bytes |
| `Wire.SetKillOccurred` | statslog.cpp:299-338 | nothing when disabled; else the report is written within 214 bytes of the 222-byte packet, with the size returned |
| `Wire.ReportRoundTrip` | statslog.cpp:299-338 | every number and the cut name are read back; the free amounts are exact if and only if they fit 32 bits |
| `Wire.ReportRead` | statslog.cpp:299-338 | a reader that takes every field from its own byte offset gets the report back: memory figures or -1 for each, the kill, the cut name |

## Left out

- The in-kernel lowmemorykiller path, the vmpressure strategy (mp_event_common) and minfree levels: other strategies, none of them used together with this one.
- Parsing of /proc and PSI files, cgroup and property writes, logging, the vendor hooks' own work: their results are inputs.
- The task name table of statslog.cpp: a second chained hash table that would only repeat the registry's chain proofs.
- Socket handling, subscriptions and the packets with a single word of payload: easy members.
- C++ memory-model claims about reads of the hash table and of the valid flag outside the lock: each small step is atomic.
- proc_get_script: its answer is an input of the scan; only its place in the scan is modelled.
- Registry.Registry.RegisterOomAdjProc: does not model the soft limit written to the memory cgroup, only whether its path was found.
- Registry.Registry.PidRemove: does not model freeing the record, nor the static record of a native process; the record leaves the model.
- SelectionModel.KillOneKeeps: the reads of /proc/<pid>/status that precede a kill are one answer of the system, since each failure has the same effect.
- Watchdog.WatchdogCallback: on a registry that does not change meanwhile; what its looks find when it does is Watchdog.GlancesSpec, whom it signals then is WatchdogRuns, and what its mark is worth then is FineRuns.
- WatchdogRuns.WatchdogReaches: without pidfds the signal goes to the pid copied; that the kernel may have given it to another process is not modelled.
- KillCount.KillCounters.Get: does not model what a read in front of the index table returns, only that it happens.
- Watermark.CalcZoneWatermarks: does not model 64-bit overflow of page counts, nor what is read past the skip counters, only that it happens.
- Watermark.LowestBreached: cached pages are a non-negative integer; the float product with cache_percent is not modelled.
- PsiModel.VerdictMin: the zone totals, cached pages and swap figures enter as readings, so the dependence of the file-page sum on the boost is only in Watermark.
- ThrashRuns.RunSound: the maximum is claimed while measurements fit an int; beyond that the stored value is the truncated one (CInt.ToInt32Exact). A shift by 64 windows or more, which C leaves undefined, is taken modulo 64.
- Reaper.Reaper.Serve: an uninterrupted turn of one thread; interleavings are the subject of ReaperModel.
- Batch.UringAgrees: for batches in which every file operation succeeds; what failures do to the completion loops is stated by Batch.ReapBatch.
- Decisions.WindowHalves: for a growth of at least 1; with counters that run forward the only other value is 0, which stays 0. A shift by 64 windows or more is undefined in C and is taken modulo 64, as 64-bit processors shift.
- Decisions.StallReportedOnce: for reclaim told by vmstat; with a memevent listener it is an answer of the system.
- Recency.OldestTriedFirst: for slots from which the tail is taken; where the heaviest is taken instead, whom the first attempt is on is stated by ScanSteps.FirstTried.
- PollingRuns.PollStep: when a polling turn comes is left open; the sleep computed from the polling interval is not modelled.
- FineRuns.FailureEndsWait: for kernels with pidfds, where a wait has a descriptor and a kill is handed over; a short read of the pipe is not modelled.
- FineModel.RunInv: readings of the clock and of memory, and polling, are not part of the small steps; which records are tried in which order is left open there.
- DescriptorRuns.RunExact: pidfds only; sockets and files opened and closed within one function are not modelled.
- Wire.GetProcs: asks for at most three records, the capacity the source relies on its caller for.
