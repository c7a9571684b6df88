# Verified model of the Ithiltir node

The node agent and its Proxmox VE helper are built from small state machines, each guarded by one lock, one
event loop or one sequence of file renames. Their capacities, orders and recovery promises are claimed in
comments and relied on elsewhere. This project models these machines in Dafny 4.11 and proves the promises over
all inputs, all interleavings and, where files are involved, all crash points.

Check everything with `dafny verify --resource-limit 2000000 --verification-time-limit 0 dfyconfig.toml`.

## How the model is laid out

Most components come in two or three layers.

* A *specification* on immutable values: what each locked section, loop arm or file operation does to the state
  (`HistorySpec`, `Collector`, `GuestBackoff`, `SessionSpec`, `ProbeSpec`, `UpdateSpec`, `Transport`).
* A *transition system* over that specification, in which callers, workers, crashes, timers and answers from
  outside are interleaved in any order. `Run` is a sequence of states and steps; the theorems hold in every state
  of every run. Where a promise is about the past, the state carries a log of what happened, and the promise is a
  predicate on the log alone.
* *Objects in place*: classes with the fields of the source, whose methods assign those fields as the source does
  and are proved to make exactly the step that the specification describes (`HistoryCache`, `CollectorObjects`,
  `GuestCollector`, `SessionLoop`, `ProbeReader`, `UpdateFiles`, `UnixUpdate`, `UpdatePlan`, `RpcTarget`). A ghost
  field holds the abstract value, and the validity predicate ties every object to it.

| files | component |
|---|---|
| `HistorySpec`, `HistorySystem`, `HistoryReuse`, `HistoryCancel`, `HistoryCache` | single-flight VM history cache, its runs, what callers are told and how old it is, who is told of a cancellation, and its objects |
| `Collector`, `CollectorSystem`, `CollectorObjects` | round-robin sampling of VMs under inventory refreshes |
| `Virt`, `Assembly`, `Observations` | the snapshot contract, the snapshots that are assembled, and what they show of a run |
| `GuestBackoff`, `GuestCollector`, `GuestRound`, `GuestSystem`, `GuestTargets`, `GuestAddresses` | guest-IP collection: persisted backoff, scan and query, one round, all of them together under crashes, where targets come from, decoding |
| `SessionSpec`, `SessionAnswers`, `SessionLoop` | the query session of a target, what its arms do case by case, and its variables in place |
| `ProbeSpec`, `ProbeReader`, `DiskUsage` | file-system usage probes and one collection |
| `Manifests`, `UpdateSpec`, `UpdateFiles`, `UnixUpdate` | update installation on Windows and on Unix |
| `Transport`, `UpdatePlan` | transport selection of a target, and the update decision of a round |
| `Common`, `Text`, `Sorting` | optional values and time, Go string operations, stable sorting |

Sizes, times and codes stand in the theorems as numbers and texts, so that a wrong constant or a wrong case in a
specification contradicts them; where a specification is a table of cases, a lemma named `...Exactly` states the table
in terms of what the environment sees.

A clock is a natural number of milliseconds that never decreases. What a lookup, a probe, a guest, a server, a
rename or a context reports is a parameter of the step and may be anything its type allows.

## Findings

* `collector.snapshot` does not always meet the contract of `Snapshot.Validate`. Two entries of the configuration
  directory can stand for one VM: for `7.conf` and `07.conf` the inventory reads `7.conf` twice
  (`Assembly.TwoFilesForOneVM`). QEMU's status is stored however long it is (`Assembly.LongStatusIsRefused`), and
  the sums of disk and network counters are signed and can wrap around (`Assembly.WrappedSumIsRefused`). Nothing
  bounds the number of VMs or the length of a name either. `Assembly.SnapshotValidExactly` gives the exact condition.
* The collection of guest IPs takes its VMs from that snapshot before anything validates it, and no lock covers a
  state file from its reading to its reservation. With a VM listed twice, two of the eight workers can find the
  same guest due, both reserve it, and both ask it at once (`GuestTargets.TwoFilesTwoQueries`). The queries of a
  round are paced, whatever its workers do, exactly if no two of its due targets are the same VM
  (`GuestSystem.RoundIsPacedExactly`); a valid snapshot is enough (`GuestTargets.ValidSnapshotIsPaced`).
* `historyCache.get` lets a caller join a call whose last caller has just left, and whose context is therefore
  cancelled. Such a caller can be told that its query was cancelled although it never left, which the server answers
  with an empty 200 (`HistoryCancel.SecondCallerIsCanceled`, for every query). `HistoryCancel.CanceledExactly` says
  when: exactly while its call is cancelled and its execution has no other result. Nobody who joins a live call is
  affected, whoever leaves (`HistoryCancel.CancelledBeforeJoin`).
* The unchecked dereference in `evictOldest` is safe, but only through the counting argument in
  `HistorySpec.VictimExists`; the comment beside it names both halves of it.
* A partition that is skipped as a pseudo file system hides later partitions mounted at the same point
  (`DiskUsage.Jobs`).

## Model

| member | source | states |
|---|---|---|
| HistorySpec.VictimExists | internal/pve/history.go:72-136 | at both call sites of `evictOldest` a complete entry exists: with 128 entries and a free active slot, or over the byte limit; the victim expires no later than any complete entry |
| HistorySpec.TrimTotal | internal/pve/history.go:118-120 | the byte-limit loop terminates after at most as many evictions as there are complete entries, even if they are empty |
| HistorySpec.TrimKeeps | internal/pve/history.go:118-136 | eviction ends within 16 MiB, keeps the accounts exact, and removes only complete entries that expire no later than every complete entry it leaves |
| HistorySpec.AdmitKeeps | internal/pve/history.go:53-84 | every way through the first locked section of `get` (join, refusal, start with or without eviction) keeps links, capacities and exact accounts |
| HistorySpec.ConcludeKeeps | internal/pve/history.go:104-122 | so does the locked section of `run`, for every result, cancelled or not, and every order of eviction |
| HistorySpec.LeaveKeeps | internal/pve/history.go:85-92 | so does the departure of a caller, whether or not it cancels the execution |
| HistorySpec.FreshEntryIsJoined | internal/pve/history.go:60-84 | `get` joins an existing call exactly when its query has an entry that is executing or whose expiry has not come; then no call is made |
| HistorySystem.RunIsBounded | internal/pve/history.go:49-175 | over all runs: `active` is the number of incomplete calls and at most 32, at most 128 entries, `bytes` is the sum over complete entries and at most 16 MiB, at most 4 lookups at once and never two of one VM |
| HistorySystem.SingleFlight | internal/pve/history.go:66-122 | over all runs: two executions in flight never answer one query, and each is the one `calls` names, so the delete of a cancelled one removes only its own entry |
| HistorySystem.WaitersAreCounted | internal/pve/history.go:83-98 | over all runs: `waiters` equals the number of callers parked on the call |
| HistorySystem.CancelledByLastWaiterOnly | internal/pve/history.go:85-92 | an execution is cancelled by a departure if and only if that caller was the only one parked on it and it is incomplete; nothing else cancels it |
| HistorySystem.CooldownIsKept | internal/pve/history.go:55-59 | over all runs: after an answer that is an error other than a cancellation, or too long, no lookup of that VM starts for ten seconds, although `get` keeps pruning `failures` |
| HistorySystem.CoolHasCause | internal/pve/history.go:158-173 | over all runs: an execution is turned away for a cooldown only within ten seconds after a failure of that VM, no cancellation, was noted |
| HistorySystem.ResultHasOrigin | internal/pve/history.go:101-122 | a complete call holds the result of its own execution, at an earlier step, for the query it was asked |
| HistorySystem.WaiterGetsItsExecution | internal/pve/history.go:83-99 | every caller receives the result of the execution of the call it joined, for its own query, even if the entry was evicted while it was parked |
| HistorySystem.ReusedUntilExpiry | internal/pve/history.go:54-122 | over all runs: a result that was not cancelled answers every later `get` of its query without a lookup, for 30 seconds if good and 10 if an error, unless its entry is evicted first |
| HistoryReuse.JoinedIsRecent | internal/pve/history.go:60-112 | over all runs: a result that `get` answers with was worked out less than 30 seconds ago, 10 for an error, and is no cancellation |
| HistoryReuse.GetExactly | internal/pve/history.go:54-84 | over all runs: `get` joins exactly an entry that can answer, refuses exactly with 32 executions under way, and evicts exactly with 128 entries that can answer, the complete one that expires first |
| HistoryReuse.TrimIsNeeded | internal/pve/history.go:118-120 | before each eviction of a concluded execution the entries left hold more than 16 MiB |
| HistoryReuse.CallerIsToldTheAnswer | internal/pve/history.go:85-175 | over all runs: a caller that stays is told what the lookup of its query answered, an error instead of more than 2 MiB, the source error of a cooldown, or why there was no lookup |
| HistoryCancel.CancelledBeforeJoin | internal/pve/history.go:66-92 | over all runs: as long as a caller stays, its call is cancelled if and only if it already was when the caller joined it |
| HistoryCancel.CanceledHasCause | internal/pve/history.go:83-117 | over all runs: a caller that stays to the end is told "cancelled" only if it joined a cancelled call or the cache is shut down |
| HistoryCancel.CanceledExactly | internal/pve/history.go:66-122 | in every state of every run before a shutdown, a parked caller can still be told "cancelled" without leaving if and only if its call is cancelled and its execution has arrived at no other result |
| HistoryCancel.SecondCallerIsCanceled | internal/pve/history.go:66-99 | for every query there is a run in which a first caller asks and leaves, and a second one joins the cancelled call and can be told so |
| HistoryCache.HistoryCache.Get | internal/pve/history.go:53-84 | the method on the objects makes exactly the specified admission, returns the joined or new call, and keeps the invariant |
| HistoryCache.HistoryCache.Depart | internal/pve/history.go:85-92 | the deferred section, on the objects |
| HistoryCache.HistoryCache.Settle | internal/pve/history.go:104-122 | the locked section of `run` on the objects: result, expiry, accounts, deletion of a cancelled entry, eviction, closing of `done` |
| HistoryCache.HistoryCache.FindOldest | internal/pve/history.go:127-133 | the search loop finds the complete entry that expires first |
| HistoryCache.HistoryCache.EvictOldest | internal/pve/history.go:126-136 | whenever a complete entry exists the dereference is safe and exactly that entry and its bytes are dropped |
| HistoryCache.HistoryCache.TrimBytes | internal/pve/history.go:118-120 | the loop terminates and performs a legal sequence of evictions down to the limit |
| HistoryCache.HistoryCache.PruneCalls | internal/pve/history.go:60-65 | the loop over `calls`, in any order, keeps exactly the entries without an expiry or whose expiry lies ahead, with exact accounts |
| HistoryCache.Ongoing | internal/pve/history.go:55-59 | the loop over `failures`, in any order, keeps exactly the cooldowns that are not over |
| HistoryCache.HistoryCache.NoteFailure | internal/pve/history.go:169-173 | a failure that is not a cancellation cools its VM for ten seconds, and touches nothing else |
| Collector.RefreshedLinked | internal/pve/cache.go:58-73 | a refresh keeps every listed id on its own observation with its sample, gives every new id a new unsampled one, and links order and entries |
| Collector.ScanIsComplete | internal/pve/cache.go:80-96 | a scan from the cursor sees every listed VM: when nothing is handed out none is idle and due, and the wait is the least of three seconds and the earliest idle due time |
| Collector.DistanceReaches | internal/pve/cache.go:82 | every place of the order is reached at its cyclic distance, wherever the cursor stands, even beyond an order that shrank |
| Collector.PickApproaches | internal/pve/cache.go:81-94 | while a VM is ready every pick hands out that VM or brings the cursor strictly closer to it |
| CollectorSystem.NeverSampledTwice | internal/pve/cache.go:85-117 | over all runs of workers and refreshes no id and no observation is sampled by two workers at once |
| CollectorSystem.SamplesAreSpaced | internal/pve/cache.go:88-120 | until shutdown successive samples of one observation start at least three seconds apart |
| CollectorSystem.SamplesAreOwn | internal/pve/cache.go:116-121 | a listed observation is unsampled, or holds a sample that was started for it and kept by it |
| CollectorSystem.ReaddedIsNew | internal/pve/cache.go:60-71 | an id that was dropped and is listed again gets an observation that never existed before and holds no sample |
| CollectorSystem.SleepersMissNothing | internal/pve/cache.go:45-112 | while a waiting worker's channel is open and its wait is not over, no listed VM is idle and due |
| Observations.HoldsLastSample | internal/pve/cache.go:62-122 | over all runs: every observation holds the sample, process and due time of the last worker that was handed it and found it still listed, before shutdown; or it was never sampled and shows a listed configuration as of unknown status |
| Observations.HandedWithLatest | internal/pve/cache.go:83-94 | over all runs: a worker gets the configuration of the last refresh and the process of the last kept sample |
| Observations.PickExactly | internal/pve/cache.go:77-97 | over all runs: the VM handed out is the nearest behind the cursor that no worker samples and whose last sample was begun three seconds ago; otherwise there is none, and the wait is exactly until the first, at most three seconds |
| Observations.NoneWaitsUnseen | internal/pve/cache.go:45-112 | over all runs: while a sleeping worker is not woken and its wait runs, no listed VM that no worker samples is due |
| Observations.SnapshotShows | internal/pve/cache.go:142-157 | over all runs: the snapshot lists the VMs of the last refresh in order; each shows its last kept sample field by field while that lives and is unknown otherwise, name and rates of its last configuration, the last capacity for two minutes, and the stored answer of its guest exactly when it runs and that answer is of this host, at most fifteen minutes old and from this boot |
| CollectorSystem.RunIsFair | internal/pve/cache.go:53-97 | over all runs, refreshes and everything else in between: an idle listed VM that is due for every worker that asks stays so until it is handed out, and is passed over by at most as many picks as it is places away from the cursor plus one turn for each refresh that changes the list of VMs; while the inventory lists the same VMs, by at most one less than their number |
| CollectorSystem.DroppingSetsBack | internal/pve/cache.go:72-82 | the turn is needed: when a refresh drops the VM before the cursor, the VM that was next comes last |
| CollectorObjects.CollectorCache.RefreshInventory | internal/pve/cache.go:58-74 | the loop over configurations on shared observations yields exactly the specified table and closes the channel |
| CollectorObjects.CollectorCache.Next | internal/pve/cache.go:77-97 | the scanning loop hands out the first ready VM from the cursor on, marked active, or the shortest wait and the current channel |
| CollectorObjects.CollectorCache.Finish | internal/pve/cache.go:116-123 | a sample is stored only through the pointer that is still listed under its id and not during shutdown; the id is released and the channel closed in every case |
| CollectorObjects.CollectorCache.TakeSnapshot | internal/pve/cache.go:129-158 | both loops over the VMs yield exactly the assembled snapshot, of which `SnapshotShows` says what it shows |
| Virt.Validate | internal/virt/snapshot.go:60-118 | the nested loops accept exactly the snapshots that meet the contract, spelled out clause by clause |
| Virt.NicNameExactly | internal/virt/snapshot.go:105-110 | the accepted names of network cards are exactly those printed as `net%d` for an `int` that is not negative |
| Virt.CheckIPs | internal/virt/snapshot.go:91-101 | accepts exactly the lists of at most 1024 zone-free global unicast addresses that stay distinct when unmapped |
| Virt.ErrorTextFits | internal/virt/snapshot.go:16-22 | the error text is the valid text of the message, up to 1024 bytes; of a longer one, the valid text of its first 1021 bytes and three dots |
| Assembly.SnapshotValidExactly | internal/pve/cache.go:128-159 | in every state of every run the served snapshot passes `Validate` if and only if the inventory has no VM twice and at most 4096, no name is over 255 bytes, no fresh observation has a QMP status over 64 bytes or a negative sum, the host name fits and is there unless an error is shown, and the text of an error is not empty |
| Assembly.TwoFilesForOneVM | internal/pve/local.go:241-258 | two directory entries for VM 7 are both listed and the snapshot is refused |
| Assembly.LongStatusIsRefused | internal/pve/monitor.go:170-185 | a QMP status of 65 bytes is a sample like any other, is listed, and the snapshot is refused |
| Assembly.WrappedSumIsRefused | internal/pve/monitor.go:204-212 | two disks that each read 2^62 bytes pass the check of each counter, their signed 64-bit sum is negative, and the snapshot is refused |
| Assembly.NothingStaleIsShown | internal/pve/guest_cache.go:249-266 | no live metric outlives its TTL, no disk capacity is two minutes old, and IPs are shown only for a running, fresh, non-template VM, within fifteen minutes and from its current boot |
| Assembly.StatusTellsLastRefresh | internal/pve/cache.go:50-141 | over all runs: the status is "ok" exactly when the last refresh succeeded at most ninety seconds ago; otherwise the error is that the inventory is stale, or what the last refresh reported; the other header fields are given |
| GuestBackoff.QueriesArePaced | internal/pve/guest_cache.go:211-246 | over all runs of one VM with one call at a time, failing writes and crashes between any two writes: every query directly follows a reservation in the file, made no earlier than the history of this VM allows, and the file holds the failure count, as far as delays tell it, and the time that the history calls for |
| GuestBackoff.ConsecutiveFailures | internal/pve/guest_cache.go:224-230 | after a success or a reset, n uncancelled attempts in a row hold the next query back for 1, 2, 5, 5, ... minutes from the last reservation |
| GuestBackoff.CancellationRestores | internal/pve/guest_cache.go:234-238 | over all runs: an outer stop whose write succeeds leaves the file as the attempt found it, failure count included, but for a next attempt three seconds later, and the history counts as if the attempt had not been made |
| GuestCollector.GuestDir.Scan | internal/pve/guest_cache.go:141-170 | for any targets, a VM listed twice included: the directory ends swept, or as it was when the first needed write failed; the candidates are exactly the due targets, each judged by its file as the scan left it by then, stably sorted by priority and due time |
| GuestCollector.SweptSettles | internal/pve/guest_cache.go:141-155 | with distinct targets a sweep leaves every readable file with the identity of its target: as it was, or empty and due at once |
| GuestCollector.DueMembers | internal/pve/guest_cache.go:156-166 | a candidate stands for exactly a target with an agent and a readable state whose time has come when the scan reaches it; its priority is 2 after a failure, 1 before a first answer, 0 otherwise |
| GuestCollector.GuestDir.Query | internal/pve/guest_cache.go:211-246 | the guest is asked exactly when the state is readable, due, not stopped and the reservation could be written; the file while asking and after every outcome is spelled out: an answer is stored with its time under this host, boot and agent and frees the next query after a minute, a stop restores the state with three seconds, a failure leaves the reservation |
| GuestCollector.QueryIsBackoff | internal/pve/guest_cache.go:211-246 | every call of `queryGuest` is a path through the steps of `GuestBackoff`: one that asks takes five and ends with the file that `Query` leaves, one that ends early takes none and leaves the file as it was |
| GuestSystem.QueriesArePaced | internal/pve/guest_cache.go:125-246 | over all runs of rounds, workers and calls on shared files, with failing writes and crashes, in which no round has a VM twice among its due targets: the queries of every VM are paced, its file says what its history says, and no guest is asked by two workers at once |
| GuestSystem.FilesHoldLastAnswer | internal/pve/guest_cache.go:141-246 | over the same runs: every file holds the last answer of its guest with its time, host, boot and agent, none after a reset, and what it began with before either; reservations, failures, stops and crashes leave it alone |
| GuestSystem.MoveIsStep | internal/pve/guest_cache.go:211-246 | what a worker does to the file of its VM, among all others at work, is a step of `GuestBackoff` for that VM |
| GuestSystem.RoundIsPacedExactly | internal/pve/guest_cache.go:141-228 | after any run so far, a round keeps the pacing and asks no guest twice at once, whatever its workers do, if and only if no two of its due targets are the same VM; distinct targets suffice |
| GuestSystem.DistinctExactly | internal/pve/guest_cache.go:141-170 | the sorted candidates are different VMs exactly if no two due targets are the same VM |
| GuestSystem.SentInOrder | internal/pve/guest_cache.go:168-205 | over all runs: of two candidates that one round hands out, the one handed out first stands earlier in the sorted list, so has a better priority, or the same and no later due time |
| GuestTargets.CollectTargets | internal/pve/guest_cache.go:98-122 | targets are collected exactly from a fresh snapshot without an error, and are its eligible VMs that could be read, in their order |
| GuestTargets.TargetsExactly | internal/pve/guest_cache.go:107-123 | the targets stand for exactly the running VMs that are no templates and could be read, each once, in their order, with id, boot and agent |
| GuestTargets.ValidSnapshotIsPaced | internal/pve/guest_cache.go:105-123 | a snapshot that meets its contract has no VM twice among its due targets, whatever the files hold, so its round is paced |
| GuestTargets.TwoFilesTwoQueries | internal/pve/serve.go:143-144 | the snapshot of a collector with two directory entries for VM 7, sampled running, gives two targets for it, and two workers can ask its guest at once, against the pacing |
| GuestRound.ConcurrencyIsBounded | internal/pve/guest_cache.go:171-197 | at any time at most two of the guests being asked are retries |
| GuestRound.RoundIsComplete | internal/pve/guest_cache.go:171-208 | when an uncancelled round is over every candidate that is no retry was queried exactly once, every retry once or skipped, never both |
| GuestRound.SkippedForLackOfSlots | internal/pve/guest_cache.go:180-187 | a retry is skipped only while two other workers hold the retry slots |
| GuestRound.SentInOrder | internal/pve/guest_cache.go:199-205 | each worker gets the next of the sorted candidates, so each is handed out once, in their order |
| GuestAddresses.DecodeIPs | internal/pve/guest.go:50-73 | fails exactly without interfaces or with more than 1024 different addresses that parse, have no zone and are global unicast once unmapped; otherwise returns each of them once, as it is printed, in byte order |
| Sorting.SortIsStable | internal/pve/guest_cache.go:168-170 | the computed order is sorted and keeps equal elements in their order |
| Sorting.SortedUnique | internal/pve/guest_cache.go:168-170 | sorted and stable determines the result, so any stable sort gives the same one |
| SessionSpec.RunIsSafe | internal/push/session.go:110-181 | over all runs: while the context lives the pending ids are exactly those with one running task or one queued result, at most 32; a task always has room to deliver, a completed id always has its cancel function, no run panics, and the failures channel never blocks |
| SessionSpec.MessagesAreConserved | internal/push/session.go:112-213 | what was handed to the stream and what is still queued are, in order, the hello and one message per answer, refusal and heartbeat: an answer carries the helper's bytes and the code of its error, each of the six by name; each was legal when it was made: busy only with 32 pending, no heartbeat after 60 seconds of silence |
| SessionSpec.AdmittedThenAnswered | internal/push/session.go:138-181 | an id is admitted again only after its last admission was answered, cancelled or not |
| SessionSpec.AnsweredOnce | internal/push/session.go:138-181 | every answer belongs to one earlier admission of the id, was worked out for the query of that admission, and no other answer to the id lies between |
| SessionAnswers.AnswerWasDelivered | internal/push/session.go:138-181 | over all runs: every answer is the outcome that the helper gave to the task of that id and query |
| SessionAnswers.AdmittedExactly | internal/push/session.go:157-181 | a request with an id of 1 to 64 bytes that is not pending and a valid query is admitted exactly with fewer than 32 pending, with a task of its own and the time it asks for, at most ten seconds; nothing else starts a task |
| SessionAnswers.OthersAreHeard | internal/push/session.go:144-155 | a cancellation cancels the context of its own id only, and other messages change nothing but the time of the last sign of life |
| SessionAnswers.EndsExactly | internal/push/session.go:132-198 | each of the eight ways a session can end, and exactly when a move leads to it |
| SessionSpec.SessionDrains | internal/push/session.go:122-126 | after the session has ended no arm runs again, and as long as a goroutine is left one can finish, so waiting for them ends |
| SessionSpec.CancelledByRequestOnly | internal/push/session.go:146-174 | the context of a pending query is cancelled exactly by a cancellation of its own id, its deadline never moves, and a new one has the requested time, at most ten seconds |
| SessionSpec.MoveKeeps | internal/push/session.go:132-198 | every arm of the loop, every goroutine and the parent context keep the session invariant |
| SessionLoop.QuerySession.OnCompleted | internal/push/session.go:138-143 | the lookup of the cancel function is safe; with room the queue gets exactly the message of that answer, with the code of its error, and the id is pending no more |
| SessionLoop.QuerySession.OnRequest | internal/push/session.go:144-181 | cancellation, ignored messages, the three rejections, busy and admission, in the order of the source, in place |
| SessionLoop.QuerySession.OnHeartbeat | internal/push/session.go:182-188 | ends the session after 60 seconds of silence, otherwise queues a heartbeat |
| SessionLoop.QuerySession.Deliver | internal/push/session.go:175-181 | a task can always put its result on the channel |
| ProbeSpec.OneProbePerPath | internal/collect/disk_usage.go:51-97 | over all runs at most one probe per path is outstanding; a stuck path has the outstanding probe its entry names, begun at least the timeout ago |
| ProbeSpec.LateTimeoutMarksNothing | internal/collect/disk_usage.go:115-125 | a timeout marks the path stuck exactly if the reader's own probe is still outstanding; a late one changes no entry, whichever probe the path has by then |
| ProbeSpec.FinishClearsItself | internal/collect/disk_usage.go:84-97 | a probe that returns was the one its entry named, clears only itself, and ends the stuck state whatever it found |
| ProbeSpec.AnswersAreHonest | internal/collect/disk_usage.go:51-126 | every value comes from a completed good probe of that path and is no older than any good probe known when the read began; an error is the error of a probe of the path; a deadline is reported only while no probe was ever good |
| ProbeSpec.StuckReadsReturn | internal/collect/disk_usage.go:59-65 | reading a stuck path answers at once, starts no probe and waits for none |
| ProbeSpec.ReadExactly | internal/collect/disk_usage.go:51-79 | over all runs: a reader of a stuck path, or of one with a probe under way and a good value, is answered at once with the latest good value; any other waits for the probe under way or starts one, whatever is known |
| ProbeSpec.WaitEndsExactly | internal/collect/disk_usage.go:100-126 | over all runs: a woken reader gets its probe's error, else its usage, else what it knew; one that waited 800 milliseconds gets what it knew or the deadline |
| ProbeSpec.ReaderKnowsLatest | internal/collect/disk_usage.go:57-79 | over all runs: what a waiting reader knows is the latest good value from when it came |
| ProbeReader.FsUsageReader.Look | internal/collect/disk_usage.go:51-79 | the locked section on shared entries and probes: the specified table, and the answer or the probe to wait for |
| ProbeReader.FsUsageReader.Finish | internal/collect/disk_usage.go:84-97 | the section of the probe goroutine on the objects |
| ProbeReader.FsUsageReader.Timeout | internal/collect/disk_usage.go:115-125 | the section of a timed-out reader on the objects, with the comparison of pointers |
| ProbeReader.FsUsageReader.Wake | internal/collect/disk_usage.go:104-114 | error first, then the probe's value, then the cached one, then the deadline |
| DiskUsage.Jobs | internal/collect/disk_usage.go:129-146 | the jobs are exactly the first partitions of each non-empty mount point that are not skipped, trimmed, so each path is read at most once |
| DiskUsage.Collect | internal/collect/disk_usage.go:128-187 | one entry for each wanted partition that could be read, sorted by mount point, whichever worker finishes first |
| DiskUsage.ReportIsUnique | internal/collect/disk_usage.go:152-186 | two reports of the same reads are equal, so the schedule of the workers cannot be seen |
| Manifests.Download | internal/selfupdate/update.go:343-385 | reading one byte more than announced, counting and hashing accepts exactly the bodies of the announced size whose digest the manifest spells, in small or capital letters |
| Manifests.MatchesExactly | internal/runner/runner_windows.go:207-213 | the comparison that ignores case accepts exactly the digest itself, in small or capital letters, with spaces around it |
| Manifests.OneDigest | internal/selfupdate/update.go:377-380 | all bodies that one manifest accepts have the same digest |
| Manifests.ValidExactly | internal/selfupdate/update.go:115-147 | which manifests are valid, condition by condition |
| Manifests.ValidIsReadable | internal/runner/runner_windows.go:178-193 | every manifest that `validate` accepts is one that the runner can read back |
| UpdateSpec.RunIsSafe | internal/runner/runner_windows.go:129-171 | at every point of every run, crashes and failing operations included: the binary, if present, is the original or its digest is spelled by a manifest sent for this node, and if it is missing a staged binary is there whose digest the readable manifest beside it spells |
| UpdateSpec.UpdateIsNotLost | internal/selfupdate/update.go:190-201 | once its manifest is written an update stays staged or becomes the installed binary, through every failure and crash, until the node stages another |
| UpdateSpec.ApplyEnds | internal/runner/runner_windows.go:129-171 | the steps of an undisturbed `applyStaged` end, from any disk, with exactly what `Installed` says of it |
| UpdateSpec.ApplyRestores | internal/runner/runner_windows.go:129-171 | after every run, however disturbed, the steps of one undisturbed `applyStaged` continue the run and end with a trusted binary; an update that was held is installed |
| UpdateSpec.SwapIsTrusted | internal/runner/runner_windows.go:147-163 | what is renamed over the binary was checked against the manifest beside it |
| UpdateFiles.Home.ApplyStaged | internal/runner/runner_windows.go:129-176 | every operation fails or succeeds as an oracle says: there is no error exactly if nothing is staged, or what is staged is intact and the directory, the backup of a present binary and the swap succeed; then the binary is what was staged, and its digest is the one the manifest spells; if nothing fails the disk is what `Installed` says; the trace is a run in every case |
| UpdateFiles.Home.Stage | internal/selfupdate/update.go:165-202 | succeeds exactly for a valid manifest whose body has the announced size and digest, when directory, rename and write succeed; then the download is staged under a manifest that the runner will accept; an invalid manifest changes nothing |
| UpdateFiles.Home.Turn | internal/runner/runner_windows.go:96-101 | one turn is one installation and, if there is a binary, one life of the node, whatever fails in them; the disk afterwards is given |
| UpdateFiles.Home.RunNode | internal/push/push.go:756-763 | in one life the node tries the updates it is offered in order, and ends with the first that it stages; the disk afterwards is given |
| UpdateFiles.Home.Loop | internal/runner/runner_windows.go:93-117 | exactly the turns up to the first stop are made, in order, each leaving the disk as one installation and one life of the node do; between them are exactly the waits, which double from one second to 32; every moment of the trace has a node to run or one to recover |
| UpdateFiles.UpdateArrives | internal/runner/runner_windows.go:93-171 | an update that the node has staged is the binary after any following turns, if in one of them directory, backup and swap work, whatever fails in the others, while nothing else is offered |
| UpdateFiles.OfferArrives | internal/runner/runner_windows.go:93-117 | from the offer to the binary: the first good offer of a turn in which there is a binary to run is the binary after any following turns without offers of which one can install; without a binary no node runs |
| UpdateFiles.FailedSwapRestores | internal/runner/runner_windows.go:157-166 | if the swap fails the old binary is put back where that works, and the update still waits |
| UpdateFiles.LifeEndsAtFirst | internal/push/push.go:756-763 | a life of the node ends with the first update that it stages, whatever it would be offered then |
| UpdateFiles.Home.EveryMomentIsSafe | internal/runner/runner_windows.go:129-171 | every disk state on the trace of the methods is safe |
| UnixUpdate.CurrentIsSafe | internal/selfupdate/update.go:204-318 | wherever a run stops, `current` leads to a binary that was there from the start or whose digest is spelled by a manifest sent for the version it is filed under |
| UnixUpdate.Home.ApplyUnix | internal/selfupdate/update.go:204-235 | a restart is asked for if and only if the manifest is valid and not the active version, the download matches it, and every operation needed succeeds; then `current` leads to the release that holds the download; an active version is left alone; without a restart `current` is as it was |
| UnixUpdate.Home.SwitchCurrent | internal/selfupdate/update.go:307-318 | the link is switched completely or not at all |
| Transport.RunIsExclusive | internal/push/rpc.go:52-113 | over all runs at most one of the HTTP choice, the RPC client and the probe failure is set, and the scheme changes only in HTTP mode, away from HTTPS, where HTTPS is not required |
| Transport.ChoiceIsPermanent | internal/push/rpc.go:52-113 | after a call chose a transport, or a probe was rejected for its credentials, every later call gets the same answer, sends no probe and changes nothing |
| Transport.ProbesAreSpaced | internal/push/rpc.go:56-107 | no probe follows one that decided, and at least a minute lies between a probe that found the server exhausted and the next |
| Transport.ProbesExactly | internal/push/rpc.go:56-84 | a call probes exactly in auto mode while nothing is settled and no retry time is pending; an exhausted server is asked again, nothing else is |
| Transport.ChoiceExactly | internal/push/rpc.go:52-113 | over all runs, case by case: protocol version 1 selects RPC on that connection, another version or an error HTTP, a rejection is passed on, an exhausted server is asked again after a minute; without a probe each mode has its answer |
| Transport.OneTransport | internal/push/push.go:776-816 | a target sends everything over one transport for its whole life and, outside HTTP mode or with HTTPS required, over the scheme it was configured with |
| Transport.DowngradeHasCause | internal/push/push.go:263-289 | a target that left HTTPS did so after an error showing plain HTTP, an uncheckable certificate at an IP address, or an expired but valid certificate at a name |
| Transport.RpcTarget.Select | internal/push/rpc.go:52-113 | the method on the fields makes exactly the specified selection |
| Transport.RpcTarget.FallbackHTTP | internal/push/push.go:263-289 | falls back exactly in HTTP mode from HTTPS, when not required, for a plain-HTTP answer, a certificate error at an IP address, or an expired certificate with a valid chain at a name |
| UpdatePlan.Decide | internal/push/push.go:734-764 | the fold over the results in order of arrival makes the decision that the multiset of results calls for: conflict exactly if two proposals differ, an update only if all agree, with the trimmed secret of a target that proposed it |
| UpdatePlan.DecidedMeans | internal/push/push.go:570-764 | conflict exactly if two proposals differ in more than the secret; an update is one that a target proposed, with its trimmed secret, and the same as all others proposed; current and nothing only without proposals |
| UpdatePlan.DecisionIsUnique | internal/push/push.go:570-595 | the results determine the decision, up to the secret of the update or the error reported |
| UpdatePlan.OrderIsIrrelevant | internal/push/push.go:734-764 | every permutation of the results leads to the same decision in that sense |
| UpdatePlan.Plan.Add | internal/push/push.go:570-587 | the effect on the three fields of the plan, with the comparison of all fields but the secret |
| UpdatePlan.Plan.AddResult | internal/push/push.go:564-587 | the fields keep telling the truth about the results seen: conflict, a proposal with its proposer's secret, a confirmation |
| Text.TrimSpaceCuts | internal/push/push.go:558-562 | trimming cuts off spaces only, at both ends, and all of them |
| Text.LexLeqExactly | internal/pve/guest.go:72 | the order in which addresses and mount points are sorted: a beginning first, otherwise by the first difference |

## Left out

- Network, HTTP and gRPC calls, JSON encoding, `pvesh`, QMP, `/proc` and `/sys`: each is a value that a step is given; decoding succeeds or fails as the step says.
- SHA-256 is any function from bytes to text, and in the claims on digests to lower-case hexadecimal text; certificate and error classification are booleans.
- Go's scheduler, mutexes and channels: a locked section is one atomic step, a channel a bounded sequence or a number of slots, and a `select` takes any ready case.
- Maps and slices that only one object owns are Dafny `map` and `seq` fields that the methods reassign; objects that several goroutines share (history calls, observations, usage entries and probes) are classes. A `context.CancelFunc` in `pending` is a flag under its id.
- The cancellation deferred at the end of `run`, after the call is complete, and the release of query contexts, which nobody observes.
- Deadlines: the 8 seconds of an execution, 3 seconds of a guest query and 10 seconds of a session query may strike at any time; the timeout of a session query is recorded but not enforced.
- HistorySystem: a lookup reports a cancellation only when its context does (internal/pve/collect.go:135-139).
- HistorySystem.RunIsBounded: the inventory check of `get` and `execute` and the file lock of a VM across processes are answers from outside; the lock is exclusive among the executions of this process.
- Assembly.SnapshotValidExactly: takes samples and configurations as their readers build them: a known status, a sample time that is set and not in the future, CPU, memory and uptime not negative, and guest files with lists of addresses that `decodeIPs` returned. CPU ratios are exact numbers, and rounding is not modelled.
- Virt.ErrorTextFits: removal of invalid UTF-8 is a parameter that never makes a text longer.
- GuestAddresses.DecodeIPs: `net/netip` is a parameter that satisfies the two laws it states: parsing undoes printing, and unmapping twice is unmapping once.
- GuestBackoff.QueriesArePaced: one host; a restart of the VM or a change of its agent starts a new history, as in the source. One call at a time is an assumption of this layer; `GuestSystem` shows when it is met.
- GuestSystem.QueriesArePaced: `collector.lock` is taken as held by one collecting process; the source gives up a round when it is not. A worker that has been handed a candidate is scheduled at any later time.
- UpdateSpec.RunIsSafe: one runner and one node at a time, reads that do not fail transiently (the source cleans staging on those), completed operations that survive a crash, and temporary files under names nobody else uses.
- Manifests.ValidIsReadable: the URL checks of `validate` are not modelled; lengths count characters, which are bytes for the hexadecimal digits that can match.
- UnixUpdate.CurrentIsSafe: path cleaning, `os.Executable` and link resolution are not modelled; the active version is a parameter.
- UpdatePlan.Decide: when the round's own context is done the source returns that error in place of the result's.
- Transport.OneTransport: `closeRPC` at shutdown, and the RPC and HTTP exchanges themselves.
- `Virt.Expire` works on a value: its only caller expires a copy.
- `writeFileAtomic` is one step that writes a whole file or nothing, as its final rename makes it.
- Parsing of `ITHILTIR_NODE_TRANSPORT`, log limiting, connection-refused counting, wake-ups of static reports, static reports and their fingerprints, the reconnect delays of `startSessions`, `staticChangeCheckInterval`, report configuration, the local page and the command line: independent of the properties above.
- Host metrics and text scraping: their specification would repeat the code.
