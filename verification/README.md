# Verification model of the round ledger, the atomic FX protocol and three concurrent ledgers

This Dafny project models the parts of the server whose correctness rests on whole runs rather than on single calls, and
proves what those runs keep. `dafny verify dfyconfig.toml` checks all of it.

## What is modelled

**The round ledger** (`ledger/`, `app/d7_round_ledger.py`). Invocations register, link to a round, finish, fail to
initialise or exit; they conflict, go overdue, expire, retire to a tombstone and are pruned. Every accepted event first
advances the ledger to its pair of clock readings.

- `LedgerSpec.dfy` states what each operation does by plain scans over the records: same branches, same order of checks,
  same constants. `Step` is one public operation, `Run` any sequence of them, with any arguments and any clock readings.
- `RoundLedger.dfy` is the ledger as it runs: a class whose operations update dictionaries, counters and hand-kept indexes
  (deadline indexes, open list, bucket lists, cohort index) through loops, proved to do exactly what the scans say. Its
  deadline indexes are used by the contract that `DeadlineIndex.dfy` proves of the tree of minima in arrays, with slot
  reuse and with a consumer that deletes entries while walking; `SortedBlocks.dfy` does the same for the blocked sorted
  list.
- `LedgerEffects.dfy` says of each operation, in times, fields and replies alone, when it is heard, when it is taken and
  what it then leaves; `Axes.dfy` and `LedgerEffects.dfy` say what each counter counts.
- Three history fields (`registered`, `retired`, `changes`) record what has happened; no operation reads them. The
  theorems of `LedgerTheorems.dfy`, `LedgerHistory.dfy`, `LedgerTime.dfy` and `LedgerClock.dfy` compare them with what
  the ledger still holds.

**The atomic write and publish protocol** (`atomic/`, `app/atomic_*.py`). Revision keys, the compare-and-write script and
what its outcome tells the writer; the publish decision; the coordinator with stored watermark, sequence source and
marker, against an adversary that fails sends, reads and writes, loses replies and evicts keys (`PublishEffects.dfy` says
when a call sends, what it then does, and what it answers otherwise); the writer-mode row, the cached mode of each process
and the quiesce session; the cutover rows and the publisher gate under torn reads; the migration of one key under
interference.

**Three concurrent ledgers** (`lanes/`). The counters of the authentication executor, the notice delivery queue and the
configuration observer, whose answers `ConfigWitness.dfy` traces back to events; `ConfigAffirmation.dfy` says what it
affirms and when it gives up. Each is a state machine over the critical sections of its lock, so that a run is any
interleaving.

Concurrency is modelled by the order of critical sections; hooks, clocks, the network and the database enter as parameters
of each step, chosen freely. Times and identifiers are integers. An error that the source raises is a reply or an `Option`.

## Findings

- The walk over the deadline tree does not yield in the order of registration, although its comment says so
  (`app/d7_round_ledger.py:210-226`): a freed slot is handed out again, last in first out, and a later number may get it.
  Registering 1 and 2, cancelling 1 and registering 3 yields 3 before 2 (`DeadlineIndexes.ReuseBreaksOrder`). For every
  tree and limit the order is that of registration exactly if slots and numbers agree on what is due
  (`DeadlineIndexes.DeadlineIndex.Sweep`); they agree as long as no slot has been freed
  (`DeadlineIndexes.RegistrationOrder`), and a later number keeps the agreement exactly if its slot lies behind every slot
  in use (`DeadlineIndexes.HandingKeepsOrderExactlyWhen`).
- A confirmed drain does not rule out legacy writes when refreshes of one process overlap. The halt is stamped before its
  transaction commits (`scripts/activate_atomic_fx.py:496-510`), and a refresh reads the row outside the lock and swaps
  without comparing (`app/atomic_write_runtime.py:173-237`). A process that starts between stamp and commit can read the
  legacy row, acknowledge the halt through a second refresh, and then swap in what the first had read
  (`Quiesce.OverlapBringsLegacyBack`). A process that enforces anything else can come back to legacy mode exactly if it has
  seen no activation and still holds a read begun before the commit (`Quiesce.ComesBackExactlyWhen`), which decides whether
  a drain lasts (`Quiesce.DrainLastsExactlyWhen`). It always lasts when refreshes of a process do not overlap
  (`Quiesce.DrainedNeverReturnsToLegacy`), and for processes that started after the commit
  (`Quiesce.StartedAfterTheCommit`).
- "The session is null exactly when the status is idle" holds of the cutover row as long as no update from idle to running
  names a null session (`app/atomic_cutover_durable.py:273-300` compares a missing session by IS NULL); exactly that
  update breaks it (`Cutover.OnlyASessionlessStepBreaksIt`).
- The Python reference form of the compare-and-write script calls an object with a present `null` schema version a version
  1 value, the script itself an invalid one (`app/atomic_lua.py:49-87`, `app/atomic_lua.py:102-134`). They disagree on
  exactly these texts (`CompareWrites.ReferenceDiffersExactlyWhen`). The model follows the script.
- The observer of collection switches affirms the last acknowledgement up to a moment as long as acknowledgements are dated
  between the start of their call and their own arrival (`ConfigWitnesses.AnswerIsLatest`). After any run, one that is
  dated into the future can make the observer give up only from a moment to come
  (`app/collection_config_observer.py:132-136`), so that it ignores a call made before then and affirms the opposite
  (`ConfigAffirmations.FutureDateMisleads`); and one that is dated back can be missed in the same way
  (`ConfigAffirmations.PastDateMisleads`). Whatever the dates, nothing is affirmed that was not said, and nothing that was
  taken up is passed over (`ConfigWitnesses.AnswerHasWitness`).

## Model

| member | source | states |
|---|---|---|
| Axes.NormalizeAxis | app/d7_round_axes.py:33-44 | an entry is malformed exactly when its status is missing or not of its axis, and then its reason is not also called unrecorded |
| Axes.NormalizeSays | app/d7_round_axes.py:54-150 | pair by pair the normalised status and reason of either axis are the report's own where its status is one of the axis, and unknown and malformed otherwise; final_db and the telemetry error are the report's |
| Axes.AddRound | app/d7_round_ledger.py:1168-1205 | counting a round pair by pair adds exactly its contribution to the rows and rounds |
| Axes.ContributionIsBalanced | app/d7_round_ledger.py:1168-1205 | one round's counters satisfy V+M+U+N = rounds, the writing and final_db sums and the reason sums, per source and pair |
| Axes.ContributionCounts | app/d7_round_ledger.py:1168-1205 | each counter of a round is 1 exactly where the recorded status, reason or flag of that pair and axis is what it counts; malformed and unrecorded items count axis by axis |
| Axes.SumIsBalanced | app/d7_round_ledger.py:1149-1166 | merging rows and rounds keeps all these equations |
| LedgerSpec.LatestStart | app/d7_round_ledger.py:1296-1298 | the frozen line is the latest start among those retired and the previous line |
| LedgerSpec.Least | app/d7_round_ledger.py:1316-1320 | the closing target is lowered to the earliest minute before a record that is held back |
| LedgerInvariant.ReplaceKeeps | app/d7_round_ledger.py:1387-1394 | any change of live records that leaves identity, round and inclusion alone keeps the whole invariant |
| LedgerInvariant.AnnounceKeeps | app/d7_round_ledger.py:1499-1517 | a record that enters or leaves the open contributions and is announced keeps the whole invariant |
| LedgerInvariant.IsolateKeeps | app/d7_round_ledger.py:1502-1517 | isolating a record, with its announced removal, keeps the whole invariant |
| LedgerInvariant.ConflictKeeps | app/d7_round_ledger.py:1530-1543 | isolating both parties of a conflict keeps the whole invariant |
| LedgerAdvance.RetireKeeps | app/d7_round_ledger.py:1259-1299 | retiring any set of records keeps identities, ownership, totals, frozen counters, frozen line and change stream consistent |
| LedgerAdvance.CloseBucketsKeeps | app/d7_round_ledger.py:1314-1365 | closing buckets keeps the invariant: what stays open lies strictly beyond the new frontier |
| LedgerAdvance.TotalBalances | app/d7_round_ledger.py:1236-1244 | the frozen counters of any set of records satisfy the connection and lifecycle equations and count each record once |
| LedgerAdvance.PruneKeeps | app/d7_round_ledger.py:1301-1312 | forgetting tombstones with their identities keeps ownership and identities one to one |
| LedgerAdvance.AdvanceKeeps | app/d7_round_ledger.py:1314-1385 | a whole advance keeps the invariant |
| LedgerSafety.NoIdentityFault | app/d7_round_ledger.py:1430-1441 | the identity check on an invocation never fires in a reachable state |
| LedgerSafety.NoCandidateFault | app/d7_round_ledger.py:1441-1454 | the identity check on the owner of a named round never fires in a reachable state |
| LedgerSafety.AdvanceStaysBehind | app/d7_round_ledger.py:2031-2041 | an advance never closes a bucket that is still open for a report, even where the clocks disagree |
| LedgerSafety.FirstFinishKeeps | app/d7_round_ledger.py:2130-2186 | the first finish, in time, refused or late, keeps the invariant |
| LedgerSafety.BindKeeps | app/d7_round_ledger.py:1993-2002 | linking a round keeps ownership one to one |
| LedgerSafety.EnterKeeps | app/d7_round_ledger.py:1618-1657 | a new registration keeps the invariant |
| LedgerSafety.StepKeeps | app/d7_round_ledger.py:1545-2186 | every public operation keeps the invariant, whatever its arguments and clock readings |
| LedgerSafety.RunKeeps | app/d7_round_ledger.py:769-2344 | every run from an empty ledger keeps the invariant |
| LedgerHistory.StepFollows | app/d7_round_ledger.py:1545-2186 | one operation rewrites no history: see HistoryFollows |
| LedgerHistory.HistoryFollows | app/d7_round_ledger.py:1502-1517 | between any two moments of a run: finish, round, init failure and wrapper exit are written once, isolated records stay isolated and are never finalized, nothing retired returns, totals, frontier, frozen line and changes only grow |
| LedgerHistory.RunKeepsJobs | app/d7_round_ledger.py:1246-1257 | while a job's latest invocation is live the job index agrees with its record |
| LedgerTheorems.CumulativeIsExactlyOnce | app/d7_round_ledger.py:1322-1365 | in every run the cumulative rows are the contributions of the included rounds, each once, and all their equations hold |
| LedgerTheorems.StepIncludes | app/d7_round_ledger.py:1324-1365 | a round becomes included precisely when the frontier passes the end of its bucket while it is open_included, with the detail it then has |
| LedgerTheorems.PendingKeysBeyondFrontier | app/d7_round_ledger.py:2031-2041 | in every run, also after the wall clock was anchored backwards, each live report lies strictly beyond cumulative_end |
| LedgerTheorems.ChangeStreamReplays | app/d7_round_ledger.py:2176-2186 | replaying all changes yields exactly the open-included and frozen-included rounds; per invocation they are a prefix of add, remove |
| LedgerTheorems.CohortIsExactInRuns | app/d7_round_ledger.py:1837-1871 | a cohort at or above cohort_exact_from counts every invocation ever registered for the source in the range |
| LedgerTheorems.RegistersAboveTheLine | app/d7_round_ledger.py:1603-1607 | nothing that starts below cohort_exact_from can still register |
| LedgerTheorems.IdentityAndPopulation | app/d7_round_ledger.py:1227-1229 | in every run index_error stays unset, started records and tombstones correspond one to one with the ownership map, and N_res = N_live + N_tomb |
| LedgerTheorems.EpochTotalsAddUp | app/d7_round_ledger.py:1902-1930 | frozen plus live counts are all registrations, and both equations hold for every source |
| LedgerTheorems.FirstFinishWins | app/d7_round_ledger.py:2025-2138 | in every run a later proper report for the round of a live invocation that has finished is conflicting exactly if its digest differs from the first, and a duplicate exactly if the digest is the same, it is received no earlier than the first was finished, and the record is not isolated; the first finish stays, and it goes on counting exactly if the report is the same and in order |
| LedgerTheorems.FinalizedIsFirst | app/d7_round_ledger.py:2139-2186 | in every run whoever is told its report is final was live and unfinished before, and is finished with exactly this report, counted and announced once, after |
| LedgerTime.AdvanceForm | app/d7_round_ledger.py:1314-1385 | one formula for which records die, which survive and which tombstones remain after an advance |
| LedgerTime.RetiredOnlyWhenDue | app/d7_round_ledger.py:1314-1365 | no record is closed or expired before both of its clocks have passed |
| LedgerTime.ExpiresExactlyWhenDue | app/d7_round_ledger.py:1376-1380 | an unfinished record is live after an advance exactly while one of its clocks has not passed |
| LedgerTime.PrunedExactlyWhenDue | app/d7_round_ledger.py:1381-1385 | a tombstone is pruned exactly when both clocks have passed by the late window |
| LedgerTime.OverdueExactlyWhenDue | app/d7_round_ledger.py:1387-1394 | a live record becomes overdue in an advance exactly if it is awaited and a quarter of an hour has passed on the monotonic clock; nothing else is marked |
| LedgerTime.ClosesExactlyWhenDue | app/d7_round_ledger.py:1314-1365 | a finished record leaves exactly if wall time has reached seventy minutes after the end of its minute and every finished record whose minute ends no later has reached the same moment on its monotonic clock; its round is then included exactly if it was openly included |
| LedgerTime.LeavesATombstone | app/d7_round_ledger.py:1259-1299 | a record that leaves is counted in its last state and remembered, in full, until two hours after it might have left by both clocks |
| LedgerTime.ForgetsExactlyWhenDue | app/d7_round_ledger.py:1376-1385 | an unfinished record leaves exactly four hours after its start by both clocks; a tombstone exactly two hours after its record might have left |
| LedgerTime.ForgottenIsRemembered | app/d7_round_ledger.py:1301-1312 | an identity is forgotten exactly together with its tombstone, and that this has happened is remembered |
| LedgerTime.NobodyAwaitedIsOverdue | app/d7_round_ledger.py:1368-1375 | after an advance no awaiting or in-flight record is past its overdue deadline |
| LedgerTime.TargetIgnoresTheGone | app/d7_round_ledger.py:1314-1320 | records that an earlier advance retires do not hold a later closing target back |
| LedgerTime.AdvanceIsConfluent | app/d7_round_ledger.py:1314-1385 | for nondecreasing clocks two advances give the same ledger as one |
| LedgerClock.ClockNeverGoesBack | app/d7_round_ledger.py:1055-1097 | over any readings accepted mono never decreases, and wall decreases only by anchoring again |
| LedgerClock.MovesExactlyWhen | app/d7_round_ledger.py:1055-1097 | over any readings a pair moves the accepted clock without a new anchor exactly if there is none before, or the clock is not isolated, neither reading goes back and the two steps differ by at most a minute |
| LedgerClock.ReanchorNeedsSteadyReadings | app/d7_round_ledger.py:1077-1094 | the clock is anchored again only at the end of a steady chain made up of its latest readings one after another, at least three over at least ten seconds; only readings behind the accepted monotonic time and immediate repetitions do not count |
| LedgerClock.SteadyReadingsAnchor | app/d7_round_ledger.py:1077-1094 | conversely a steady chain of at least three readings over at least ten seconds, of which the first is turned away and none lies behind the accepted monotonic time, anchors the clock again before it ends |
| LedgerTheorems.RunClockNeverGoesBack | app/d7_round_ledger.py:1055-1097 | the same of the clock of every run of the ledger |
| LedgerEffects.MovesOnlyWhenHeard | app/d7_round_ledger.py:1055-1119 | in every run the clock moves on exactly for the events that are acted on and heard; every other one leaves everything but the clock as it is, and is told why |
| LedgerEffects.ClosesOnTime | app/d7_round_ledger.py:1314-1365 | in every run a counted round is in the cumulative rows after an event exactly if by the event's readings its bucket may close |
| LedgerEffects.RegistersExactlyWhen | app/d7_round_ledger.py:1545-1694 | in every run a registration is admitted exactly if it is new, at most a minute old, of a known source, above the frozen line, and there is room; it then adds one untouched record and at most notes the end of its job's previous invocation; a repeated one is a duplicate exactly if all five fields agree, and gives the record up otherwise |
| LedgerEffects.LinksExactlyWhen | app/d7_round_ledger.py:1936-2002 | in every run a live record is bound exactly if it is unbound, the round is nobody else's and the contract is the registered one; every other case has its own answer and gives up whom it should |
| LedgerEffects.FinishesExactlyWhen | app/d7_round_ledger.py:2050-2186 | in every run a first report is counted exactly if it is proper, in order, not isolated, in time and there is room; then the recorded detail says, pair by pair, what the report says |
| LedgerEffects.RefinishesExactlyWhen | app/d7_round_ledger.py:1475-1497 | in every run a further report is a duplicate exactly if it says the same in every respect kept, and a conflict exactly if it is proper and differs; one for a remembered invocation changes nothing and is answered by what is remembered |
| LedgerEffects.MisdirectedExactlyWhen | app/d7_round_ledger.py:2018-2049 | in every run a report for a round that the live record is not linked to gives up the record as unavailable if it is unbound and the round is nobody's, and otherwise both parties of the conflict |
| LedgerEffects.InitFailsExactlyWhen | app/d7_round_ledger.py:1696-1741 | in every run a failed initialisation is recorded exactly if it is the first one reported for a live invocation that is not linked to a round |
| LedgerEffects.ExitsExactlyWhen | app/d7_round_ledger.py:1743-1795 | in every run the exit of a wrapper is recorded exactly if it is the first one, not after the next entry of its job and not before the report |
| LedgerEffects.CumulativeCounts | app/d7_round_ledger.py:1168-1205 | in every run each cumulative counter is the number of included rounds whose recorded detail has what it counts |
| LedgerEffects.EpochTotalsCount | app/d7_round_ledger.py:1885-1930 | in every run each total of the epoch is the number of invocations, retired or live, that have what it counts |
| LedgerIndexes.IndexesNeverFull | app/d7_round_ledger.py:816-819 | in a reachable state the scans behind the deadline indexes leave room for every live record |
| LedgerIndexes.TreesHaveRoom | app/d7_round_ledger.py:159-171 | a deadline tree built for the maximum number of records whose slots are those of the other records hands out a slot, so the capacity error is never raised |
| DeadlineIndexes.SizeFor | app/d7_round_ledger.py:149-150 | the number of leaves is the smallest power of two that is not below the capacity |
| DeadlineIndexes.NodeIsMinimum | app/d7_round_ledger.py:180-192 | each node of the tree is at most every deadline below it |
| DeadlineIndexes.NodeWritten | app/d7_round_ledger.py:181-192 | repairing one node leaves only its parent in doubt, and none if it was already right |
| DeadlineIndexes.DeadlineIndex.Write | app/d7_round_ledger.py:180-192 | a leaf is written and the tree is right again in spite of the early exit |
| DeadlineIndexes.DeadlineIndex.Schedule | app/d7_round_ledger.py:159-192 | a deadline is set, failing exactly when the number has no slot and all slots are taken; a new number takes the slot freed last, or else the next fresh one |
| DeadlineIndexes.DeadlineIndex.Cancel | app/d7_round_ledger.py:174-192 | a deadline is removed and its slot put on top of the freed ones |
| DeadlineIndexes.DeadlineIndex.Reserve | app/d7_round_ledger.py:194-208 | a slot is taken without a deadline, failing exactly when none is left |
| DeadlineIndexes.DeadlineIndex.Walk | app/d7_round_ledger.py:213-224 | the walk below a node yields the due entries of its slots in slot order while the consumer deletes what it is given |
| DeadlineIndexes.DeadlineIndex.Sweep | app/d7_round_ledger.py:210-226 | every due number is yielded exactly once whatever is deleted on the way, and nothing else is lost; the numbers come in slot order, and increase exactly if slots and numbers agree on what is due |
| DeadlineIndexes.RegistrationOrder | app/d7_round_ledger.py:159-226 | for any operations that bring new numbers in increasing order and free no slot, slots and numbers agree, so sweeps yield in the order of registration |
| DeadlineIndexes.HandingKeepsOrderExactlyWhen | app/d7_round_ledger.py:159-176 | a number above all others keeps the agreement exactly if its slot lies behind every slot in use |
| DeadlineIndexes.ReuseBreaksOrder | app/d7_round_ledger.py:159-226 | after registering 1 and 2, cancelling 1 and registering 3, a sweep yields 3 before 2 |
| DeadlineIndexes.Freed | app/d7_round_ledger.py:174-179 | freeing keeps used and freed slots a partition of those handed out |
| SortedBlocks.Blocks.Add | app/d7_round_ledger.py:236-250 | a key is added; blocks stay non-empty, at most 256 long, sorted and in order, with matching maxima |
| SortedBlocks.Blocks.Range | app/d7_round_ledger.py:252-261 | exactly the keys in [lower, upper), sorted, each as often as it is held |
| SortedBlocks.Blocks.Remove | app/d7_round_ledger.py:263-276 | one occurrence is removed; it is an error exactly when the key is absent |
| SortedBlocks.OnlyIn | app/d7_round_ledger.py:263-270 | a key that is held is held by the first block whose maximum is not below it |
| SortedBlocks.SplitBlocksOk | app/d7_round_ledger.py:246-248 | splitting an overlong block keeps the order of all blocks |
| LedgerIndexes.DueList | app/d7_round_ledger.py:210-226 | the due numbers of an index, each once |
| LedgerIndexes.AddToBucket | app/d7_round_ledger.py:985-989 | the bucket lists after an addition hold exactly the open numbers |
| LedgerIndexes.DropFromBucket | app/d7_round_ledger.py:991-1002 | the bucket lists after a removal hold exactly the open numbers, and no list is empty |
| LedgerIndexes.RetireOneMore | app/d7_round_ledger.py:1259-1299 | retiring records one after another is retiring them together |
| LedgerEngine.FindTarget | app/d7_round_ledger.py:1316-1320 | the loop over the close index finds the closing target of the scan, which reaches the minute of a finished record exactly if that record may leave by times alone |
| LedgerEngine.SumIncluded | app/d7_round_ledger.py:1168-1205 | the loop sums the contributions of exactly the included records on a list |
| LedgerEngine.CloseDue | app/d7_round_ledger.py:1314-1365 | closing through the index is closing by scan, and all indexes agree afterwards |
| LedgerEngine.MarkDue | app/d7_round_ledger.py:1368-1375 | marking through the overdue index marks exactly the overdue |
| LedgerEngine.ExpireDue | app/d7_round_ledger.py:1376-1380 | expiring through the expiry index expires exactly the due |
| LedgerEngine.PruneDue | app/d7_round_ledger.py:1381-1385 | pruning through the prune index forgets exactly the due |
| LedgerEngine.AdvanceAndClose | app/d7_round_ledger.py:1314-1385 | the whole advance through the indexes is the advance by scan, whose closing, expiry and pruning LedgerTime.ClosesExactlyWhenDue and ForgetsExactlyWhenDue tell by times alone |
| RoundLedgers.Isolate | app/d7_round_ledger.py:1502-1517 | isolating keeps open lists and overdue index in agreement with the records |
| RoundLedgers.FinishRecord | app/d7_round_ledger.py:2050-2186 | the finish of a live record does what the scan says and keeps every index in agreement |
| RoundLedgers.LinkRecord | app/d7_round_ledger.py:1969-2002 | linking a live record does what the scan says and keeps every index in agreement |
| RoundLedgers.RegisterRecord | app/d7_round_ledger.py:1568-1694 | registering does what the scan says and keeps every index in agreement |
| RoundLedgers.RoundLedger.constructor | app/d7_round_ledger.py:770-847 | a new ledger is the empty one, with agreeing indexes |
| RoundLedgers.RoundLedger.Register | app/d7_round_ledger.py:1545-1694 | new state and reply are those of the specification, which LedgerEffects.RegistersExactlyWhen tells by fields and times alone, and the ledger stays valid |
| RoundLedgers.RoundLedger.LinkRound | app/d7_round_ledger.py:1936-2002 | new state and reply are those of the specification, which LedgerEffects.LinksExactlyWhen tells by fields alone, and the ledger stays valid |
| RoundLedgers.RoundLedger.Finish | app/d7_round_ledger.py:2004-2186 | new state and reply are those of the specification, which LedgerEffects.FinishesExactlyWhen and RefinishesExactlyWhen tell by report, fields and times alone, and the ledger stays valid |
| RoundLedgers.RoundLedger.ReportInitFailed | app/d7_round_ledger.py:1696-1741 | new state and reply are those of the specification, which LedgerEffects.InitFailsExactlyWhen tells by fields alone, and the ledger stays valid |
| RoundLedgers.RoundLedger.WrapperExited | app/d7_round_ledger.py:1743-1795 | new state and reply are those of the specification, which LedgerEffects.ExitsExactlyWhen tells by fields alone, and the ledger stays valid |
| RoundLedgers.RoundLedger.IndicesIntact | app/d7_round_ledger.py:1227-1229 | the check of the resident counters always succeeds |
| RoundLedgers.RoundLedger.CohortSnapshot | app/d7_round_ledger.py:1818-1883 | the cohort index answers with the connection, lifecycle and flag counts of the cohort, each the number of its invocations that have it; its total is the number ever registered, and both equations hold |
| RoundLedgers.RoundLedger.RecentWindow | app/d7_round_ledger.py:2269-2275 | merging the bucket lists of the last sixty minutes yields exactly the live included reports of that hour, in order of registration |
| RoundLedgers.RoundLedger.ContributionsOpen | app/d7_round_ledger.py:2237-2248 | a page holds the next open reports, none is skipped, and there is a next page exactly when more remain |
| RevisionKeys.KeyOrder | app/atomic_value_schema.py:38-59 | string order of keys is tuple order of revisions, on all of [0, 10^20) squared |
| RevisionKeys.ParseOfMake | app/atomic_value_schema.py:67-92 | parsing inverts making |
| RevisionKeys.MakeOfParse | app/atomic_value_schema.py:67-92 | making inverts parsing |
| RevisionKeys.ParseAcceptsExactlyKeys | app/atomic_value_schema.py:67-92 | a string is accepted exactly when it is the key of a revision |
| CompareWrites.ScriptIsEvaluate | app/atomic_lua.py:49-87 | on any decoded text the script answers by what the key holds: nothing, no version, a version 2 value, or anything else |
| CompareWrites.ReferenceDiffersExactlyWhen | app/atomic_lua.py:102-134 | the reference form differs from the script on exactly the objects whose schema version is present and null, and there the script is the stricter one |
| CompareWrites.EndsAtNewest | app/atomic_lua.py:49-87 | from an absent key any order of writes ends at one of them, at the newest revision of all |
| CompareWrites.AnswersByRevision | app/atomic_lua.py:71-87 | of two revisions the newer one wins; equal ones are refreshed if the rates agree, and in conflict otherwise |
| CompareWrites.StartsFromWrite | app/atomic_lua.py:49-87 | a version 2 key behaves as if its value had been the first write |
| CompareWrites.OrderDoesNotMatter | app/atomic_lua.py:49-87 | if equal revisions carry equal rates, the final revision and rate do not depend on the order of the writers |
| CompareWrites.OrderDoesNotMatterFromV2 | app/atomic_lua.py:49-87 | the same from a version 2 key |
| CompareWrites.ForeignValuesStay | app/atomic_lua.py:56-70 | values of version 1 or broken values are never written over |
| CompareWrites.OutcomeIsTrue | app/atomic_write_outcome.py:97-153 | every effective revision, applied and advanced flag states what happened to the store, also when the reply was lost |
| CompareWrites.OutcomeIsComplete | app/atomic_write_outcome.py:97-153 | unless the reply was lost, whatever happened to the store is claimed; an answer of the script names an effective revision, an applied write and an advance exactly where the key now holds them |
| CompareWrites.DispositionIsJustified | app/atomic_write_outcome.py:172-182 | a publish candidate has left a revision at least as new as its own; a block has changed nothing and names a real obstacle, and an answer without one may be published; retry means no answer |
| Reconcile.DerivePending | app/atomic_reconcile.py:53-89 | each membership source is classified by database revision and published key |
| Reconcile.PendingIsKeyOrder | app/atomic_reconcile.py:53-89 | a published source is pending exactly when the database key is newer as a string |
| Reconcile.StandInPublishesOnlyNothing | app/atomic_fx_live.py:186-198 | with the stand-in write outcomes nothing is published as soon as one source is present |
| Coordinators.CommitRelation | app/atomic_coordinator.py:344-373 | a send only meets no current, an older watermark of its lineage, or another lineage |
| Coordinators.RunKeeps | app/atomic_coordinator.py:264-398 | every run of calls and losses, also losses between the read and the write of one call, keeps the coordinator's invariant |
| Coordinators.SequencesAreSafe | app/atomic_coordinator.py:344-373 | numbers issued per asset and lineage strictly increase; two watermarks written under one asset, lineage and number are identical |
| Coordinators.RelationsAreSafe | app/atomic_coordinator.py:375-398 | in every run the send path meets only no current, newer or lineage mismatch, and marker recovery only no current, newer or the same |
| Coordinators.NoSendWhileMarked | app/atomic_coordinator.py:271-276 | while a marker is held nothing is sent or issued |
| Coordinators.MarkerIsWatermarkOnly | app/atomic_retry.py:124-187 | after a returning call a marker is held exactly when the result is in the watermark-only lane; a raising call changes nothing |
| Coordinators.NoDoublePublish | app/atomic_reconcile.py:215-231 | two successive sends of one content have a loss of the stored watermark between them, before, inside or after a call, unless the first ended in a lineage mismatch |
| PublishEffects.SendsExactlyWhen | app/atomic_coordinator.py:264-398 | in every run a call sends and issues a number exactly if no marker is held, the gate is open, both flags are on, the read and the build succeed, every source built may be published, somebody listens, the content is proper and not the stored one, and the send takes place; number, history, stored watermark, marker and reply are then given; otherwise it settles a marker, or leaves the world alone and answers why |
| PublishEffects.LanesExactlyWhen | app/atomic_retry.py:124-187 | in every run the retry lane of a call is terminal exactly if the content is on record, waiting exactly if the gate, a flag or the listeners have to change, a new attempt exactly if nothing was sent and nothing forbids it, blocked exactly on a conflict or another lineage, and the watermark alone exactly if a send is not on record |
| PublishEffects.EachSendIssues | app/atomic_coordinator.py:315-373 | in every run each call that sends issues the next number, for what it has built |
| PublishEffects.EachNumberHasCall | app/atomic_coordinator.py:315-373 | in every run each number was issued by a call that sends |
| Coordinators.AtomicFxCoordinator.Publish | app/atomic_coordinator.py:264-313 | the in-place coordinator does and answers what the specification says, which PublishEffects.SendsExactlyWhen tells by the hooks alone, and keeps the invariant |
| Coordinators.AtomicFxCoordinator.SendThenCommit | app/atomic_coordinator.py:315-373 | send, number, classification, write and marker are those of the specification |
| Coordinators.AtomicFxCoordinator.RecoverMarker | app/atomic_coordinator.py:375-398 | recovery writes at most the watermark and keeps the marker exactly on a failed write |
| WriteControls.ControlTable.RequestHaltFor | app/atomic_write_durable.py:91-119 | legacy to halt, fenced by format, generation and mode, on any row |
| WriteControls.ControlTable.IncidentHaltFor | app/atomic_write_durable.py:122-158 | atomic to halt, fenced, with the epoch kept |
| WriteControls.ControlTable.ActivateFor | app/atomic_write_durable.py:161-225 | halt to atomic, fenced by generation and epoch |
| WriteControls.RunAllKeeps | app/atomic_write_durable.py:91-225 | every row reachable by the three updates is well formed |
| WriteControls.EffectiveIsRequested | app/atomic_write_control.py:101-138 | in every reachable row the effective mode is the requested mode |
| WriteControls.EffectiveExactlyWhen | app/atomic_write_control.py:101-138 | of any row, legacy and atomic mode are in effect exactly where format, history and schema bear the request out |
| WriteControls.RowsOnlyAdvance | app/atomic_write_durable.py:91-225 | generations and epochs only grow, and legacy mode, once left, is never requested again |
| WriteControls.UpdatesExactlyWhen | app/atomic_write_durable.py:60-225 | in every run the next update is applied exactly if the row is as it expects, and lost exactly if the row has moved past it; the whole new row is given |
| WriteControls.CountsUpdates | app/atomic_write_durable.py:91-225 | in every run the generation counts the updates that were applied, and the epoch the activations among them |
| WriteControls.LostIsFinal | app/atomic_write_durable.py:60-88 | a lost update is never applied later |
| WriteControls.GenerationsAreUsedOnce | app/atomic_write_durable.py:91-225 | each generation is consumed by at most one update |
| WriteRuntime.WriteModeCache.RefreshFrom | app/atomic_write_runtime.py:173-237 | the swap of a refresh, successful or not, first or later |
| WriteRuntime.BackToLegacyExactlyWhen | app/atomic_write_runtime.py:58-76 | a process goes back to legacy exactly by swapping in a legacy or missing row before it has seen an activation |
| WriteRuntime.EnforcesExactlyWhen | app/atomic_write_runtime.py:58-76 | of any row and snapshot, atomic mode is enforced exactly on a row that bears it out, legacy mode exactly where neither this row nor an earlier one says otherwise; a failed read only ends atomic mode |
| WriteRuntime.LatchedExactlyWhen | app/atomic_write_runtime.py:131-136 | over any reads the latch is set exactly once an activated row has been read |
| Quiesce.RunKeeps | app/atomic_quiesce_durable.py:73-178 | every run of updates, starts, refreshes, halts with their sessions, and acknowledgements keeps the invariant |
| Quiesce.HaltsExactlyWhen | scripts/activate_atomic_fx.py:485-519 | in every run a halt is committed together with its session exactly if the row is the legacy row it expects, no session is open, its name is new and its stamp is not from the future |
| Quiesce.AcksExactlyWhen | app/atomic_quiesce_durable.py:117-178 | in every run a process acknowledges exactly if a session is open, the row still asks for the halt, the process enforces it and has seen its generation, it started after the stamp, and it has not acknowledged before |
| Quiesce.DrainedExactlyWhen | app/atomic_quiesce_durable.py:214-270 | in every run a drain is confirmed exactly if the row still is the halted row of the open session and anyone at all has acknowledged that session |
| Quiesce.ComesBackExactlyWhen | app/atomic_write_runtime.py:173-237 | however refreshes overlap and fail, a process that enforces anything but legacy mode can come back to it exactly if it has seen no activation and still holds a read begun before the halt was committed |
| Quiesce.DrainedNeverReturnsToLegacy | app/atomic_quiesce_durable.py:214-270 | with refreshes of a process one at a time, a confirmed drain names a process that has acknowledged, and no process that has acknowledged ever enforces legacy again |
| Quiesce.DrainLastsExactlyWhen | app/atomic_quiesce_durable.py:214-270 | with overlapping refreshes a drain lasts in every continuation exactly if no process that has acknowledged enforces legacy mode or can come back to it |
| Quiesce.StartedAfterTheCommit | app/atomic_quiesce_durable.py:121-178 | a process that started after the halt was committed and has acknowledged never enforces legacy again, even with overlapping and failing refreshes |
| Quiesce.NeverBackToLegacy | app/atomic_write_runtime.py:173-237 | with refreshes of a process one at a time, whoever has enforced anything else never enforces legacy again |
| Quiesce.OverlapBringsLegacyBack | scripts/activate_atomic_fx.py:484-519 | a process that starts between stamp and commit can acknowledge through a second refresh and then enforce legacy again, while the drain stays confirmed |
| Cutover.CutoverTables.Apply | app/atomic_cutover_durable.py:245-329 | begin, advance and reset of the control row, fenced by generation, status and session |
| Cutover.CutoverTables.FlipAsset | app/atomic_cutover_durable.py:332-367 | an asset becomes ready only from blocked and with a valid vector |
| Cutover.CutoverTables.FinalizeNow | scripts/activate_atomic_fx.py:615-662 | three flips and the completion happen together or not at all |
| Cutover.SessionIsNullExactlyWhenIdle | app/atomic_cutover_durable.py:245-329 | in every orderly run the session is null exactly while the status is idle |
| Cutover.OnlyASessionlessStepBreaksIt | app/atomic_cutover_durable.py:273-300 | exactly the step from idle that names no session breaks this |
| Cutover.BrickExactlyWhen | app/atomic_cutover_durable.py:221-329 | of any control row, a step is applied exactly if the row takes it, and lost exactly if it expected an earlier generation and is a step at all; what it leaves is given |
| Cutover.FinalizesExactlyWhen | scripts/activate_atomic_fx.py:615-662 | in every orderly run the cutover is finalised exactly if it is verified under this session and generation and all three flips are proper; then all three assets are ready as flipped |
| Cutover.GateExactlyWhen | app/atomic_cutover_durable.py:112-158 | of any rows, the gate is ready exactly if the writer is atomic, the cutover is completed under a session and each of the three assets is ready with a proper vector of the present membership |
| Cutover.RowsOnlyAdvance | app/atomic_cutover_durable.py:245-367 | generations only grow, completion and ready assets are final |
| Cutover.GenerationsAreUsedOnce | app/atomic_cutover_durable.py:221-242 | each generation is applied at most once |
| Cutover.LostIsFinal | app/atomic_cutover_durable.py:221-242 | a lost update is final for its generation |
| Cutover.TornReadIsSound | app/atomic_cutover_durable.py:112-158 | with the control row read first and the assets at any later time, the gate says ready exactly when the row was completed and the recorded membership is the present one, and then all three assets are ready |
| Cutover.ReadyStaysReady | app/atomic_cutover_durable.py:112-158 | no later transaction undoes a ready gate |
| Cutover.GateCache.RefreshFrom | app/atomic_cutover_runtime.py:149-189 | the cached snapshot after a refresh; its generation never decreases |
| Cutover.LeaseIsExclusive | app/atomic_cutover_durable.py:394-466 | at any time at most one runner holds an unexpired lease, and it is the recorded owner |
| Cutover.LeasesExactlyWhen | app/atomic_cutover_durable.py:394-446 | in every run a runner gets the lease exactly if no other one holds an unexpired claim, and renews it exactly if its own has not expired |
| Cutover.ReleaseFreesIt | app/atomic_cutover_durable.py:449-466 | a holder that gives the lease back leaves it to whoever asks next |
| Migration.PassIsSafe | app/atomic_migration.py:105-210 | whatever others do between read and write, a write only replaces nothing, the very version 1 value read that is not newer than the database, or a version 2 value not newer than it |
| Migration.PassWritesExactlyWhen | app/atomic_migration.py:279-374 | with others writing in between, a pass writes exactly if nothing was read and the seed may take the place of what has come since, or the due version 1 value is still there; it is repeated exactly if that value has changed, or a value without a version has come where nothing was; it fails exactly on an unusable value, read or met by the seed |
| Migration.UndisturbedMigratesExactlyWhen | app/atomic_migration.py:105-210 | an undisturbed pass writes the database value exactly over nothing and over a version 1 value that is due, and fails exactly on an unusable value |
| Migration.MigrateOneKey | app/atomic_migration.py:279-374 | at most max_retries+1 passes, all but the last to be repeated; the result is that of the last pass, or exhaustion or a timeout where that one would be repeated too; a write is safe and leaves the database value |
| Migration.SecondRunWritesNothing | app/atomic_migration.py:105-210 | an undisturbed second run writes nothing |
| Migration.MigratedKeyIsOrdered | app/atomic_migration.py:151-166 | what a migrated key makes of a later database row is decided by the order of revisions |
| NoticeDelivery.IbkNoticeDelivery.EventSink | app/ibk_notice_delivery.py:96-113 | a notice is taken exactly while the consumer runs, no stop is set and there is room |
| NoticeDelivery.IbkNoticeDelivery.Deliver | app/ibk_notice_delivery.py:165-194 | a notice in hand ends as sent at its first successful attempt, as failed after its last one, or as abandoned at the first failed one that finds the stop, which may be set before or at any time during the delivery |
| NoticeDelivery.RunKeeps | app/ibk_notice_delivery.py:96-204 | every interleaving keeps the invariant |
| NoticeDelivery.NoticesAreConserved | app/ibk_notice_delivery.py:96-204 | at every lock boundary the accepted notices are, in order, those ended once, the one in hand and those queued, and the counters agree |
| NoticeDelivery.AttemptsAreBounded | app/ibk_notice_delivery.py:165-194 | no notice is sent more than max_attempts times, and every send belongs to an accepted notice |
| NoticeDelivery.NothingAfterStop | app/ibk_notice_delivery.py:131-163 | nothing is accepted after the stop of a started consumer, and after its end the queue is empty for good |
| NoticeDelivery.EverythingIsCounted | app/ibk_notice_delivery.py:96-204 | in every run every notice offered is counted as accepted or rejected, and every send as failed or as that of a notice that is through |
| NoticeDelivery.TakesExactlyWhen | app/ibk_notice_delivery.py:96-113 | in every run a notice is taken, as the last in the queue, exactly if the lane is enabled, the consumer has been started and has not ended, no stop is set and there is room |
| NoticeDelivery.StartsOnce | app/ibk_notice_delivery.py:115-129 | in every run a consumer is started exactly once, and a start takes back a stop that came before it |
| NoticeDelivery.NextIsDelivered | app/ibk_notice_delivery.py:148-194 | a notice that waits for an idle consumer without a stop is through with one successful send |
| NoticeDelivery.StopDrains | app/ibk_notice_delivery.py:148-204 | a consumer that finds the stop drops what is queued, in order, and ends |
| AuthExecutor.AuthExecutorLane.WorkerStarted | app/auth_executor.py:288-311 | the counters and the receipt of a start under every partial failure |
| AuthExecutor.AuthExecutorLane.WorkerFinished | app/auth_executor.py:198-213 | the counters of a finish under every partial failure; the gauge does not go below zero |
| AuthExecutor.AuthExecutorLane.Reset | app/auth_executor.py:147-195 | a reset happens exactly when nothing is in flight and nothing is counted as queued |
| AuthExecutor.CountersNeverNegative | app/auth_executor.py:130-133 | under every interleaving and every swallowed fault queued_now is at least the number of unsettled submissions and in_flight at least 0 |
| AuthExecutor.ResetFindsNobodyUnsettled | app/auth_executor.py:147-174 | no submission is unsettled when a reset is allowed |
| AuthExecutor.EachCounterMoves | app/auth_executor.py:130-327 | in every run, whatever fails, each counter moves by one exactly at its own events, and a reset alone sets it back; the peaks are those of the gauge whenever it moves and of the queue whenever it is sampled |
| AuthExecutor.CountersAreExact | app/auth_executor.py:383-474 | without faults in_flight is the number of running workers, queued_now that of unsettled submissions, and count is the number of workers that have ended and of submissions that never started, since the last reset |
| ConfigObservers.FindPoint | app/collection_config_observer.py:328-332 | the search from the newest point finds the one in effect |
| ConfigObservers.ConfigObserver.ConfigAtTime | app/collection_config_observer.py:317-345 | the answer for a moment, by the same order of checks |
| ConfigObservers.ConfigObserver.CommitStartedHook | app/collection_config_observer.py:183-199 | the hook is the event of the state machine; what an answer then owes to it is ConfigWitnesses.AnswerHasWitness |
| ConfigObservers.ConfigObserver.CommitAckHook | app/collection_config_observer.py:233-250 | the hook is the event of the state machine, with an acknowledgement time that the caller chooses |
| ConfigObservers.ConfigObserver.BaselineRowHook | app/collection_config_observer.py:274-285 | a row is kept, fails for its crawler if it is a second one, and fails for every crawler if it names none that is known |
| ConfigObservers.ConfigObserver.BaselineEndHook | app/collection_config_observer.py:287-315 | the end of a baseline visits every crawler exactly once and then closes the baseline |
| ConfigObservers.AnswersAreStable | app/collection_config_observer.py:317-332 | an affirmative answer for a past moment is later only repeated or turned to unknown |
| ConfigObservers.RevisionDeterminesValue | app/collection_config_observer.py:243-248 | two answers anywhere in a run that name one revision agree on the value |
| ConfigObservers.OverlapIsNotAffirmed | app/collection_config_observer.py:194-198 | after overlapping commits nothing is affirmed for that moment or later before a new stable baseline |
| ConfigWitnesses.AnswerHasWitness | app/collection_config_observer.py:183-332 | in every run whatever is affirmed of a moment was said by an event, the acknowledgement of a call that asked for it or the end of a baseline whose one row said so, and nothing that the observer has taken up since says anything else of that moment |
| ConfigWitnesses.AnswerIsLatest | app/collection_config_observer.py:233-332 | in every run in which calls are acknowledged for a moment between start and acknowledgement, such an event is the last acknowledgement of the crawler up to that moment, and no call of it was open by then |
| ConfigAffirmations.FutureDateMisleads | app/collection_config_observer.py:132-136 | wherever a run has come to, an acknowledgement dated at least two ticks into the future is enough to make the observer affirm now the opposite of what a later call was acknowledged for |
| ConfigAffirmations.PastDateMisleads | app/collection_config_observer.py:183-193 | wherever a run has come to, an acknowledgement dated before the start of its call can be missed in the same way |
| ConfigAffirmations.BaselineIsAffirmed | app/collection_config_observer.py:287-315 | in every run a baseline whose one row says a value of a crawler without open calls is affirmed from its end on, unless the observer has given up |
| ConfigAffirmations.AcknowledgedIsAffirmed | app/collection_config_observer.py:183-250 | in every run, where a switch is known, the value a call asked for is affirmed from its acknowledgement on, under the next revision, unless the observer has given up |
| ConfigAffirmations.DegradesExactlyWhen | app/collection_config_observer.py:118-160 | in every run the observer gives up exactly at an event that is more than it keeps track of or goes back in time, and only a new epoch ends that |
| ConfigAffirmations.ClosedStaysSilent | app/collection_config_observer.py:270-315 | in every run a baseline that was closed stays silent: no row and no end of it changes anything |
| ConfigAffirmations.OpenCallHidesExactly | app/collection_config_observer.py:183-199 | in every run a call that is taken up hides what holds from its start on, and nothing else |
| ConfigAffirmations.EndedIsRemembered | app/collection_config_observer.py:201-213 | in every run an ended call is remembered as the last one, and the oldest forgotten only for the 4097th |
| ConfigAffirmations.RunBounded | app/collection_config_observer.py:94-140 | in every run at most 256 calls in flight, 4096 ended numbers and 1024 points are kept, and a history is cut off only when it is full |

## Left out

- Sizes and budgets of the ledger (`app/d7_round_ledger.py:54-143`, `849-957`): whether a registration or a detail fits is
  an input of the event; the numbers are properties of one interpreter.
- Shape and size checks of envelopes and summaries (`app/d7_round_ledger.py:604-687`, `1033-1053`): a report is proper or
  has a problem; a foreign epoch is not modelled.
- Diagnostics, health flags other than those named, unavailable reasons, first-observed overdue times and the overflow of
  counters at 2^63: they do not influence what is proved. The `closed` flag of a live record is never set in a reachable
  state, since a closed record retires at once, so the replies that depend on it are not modelled.
- Fault injection for tests (`app/d7_round_ledger.py:2302-2344`): runs are without injected faults.
- Records are keyed by sequence number, with a dictionary from resident identifiers; the window of resident positions
  (`app/d7_round_ledger.py:279-312`) is that dictionary's set of values.
- RoundLedgers.RoundLedger.Register: fields are gathered in two values, `core` and `index`, that the methods reassign, and
  the deadline and cohort indexes are used by the contracts of `DeadlineIndex.dfy` and `SortedBlocks.dfy` rather than
  through shared objects, so aliasing between them is not captured.
- LedgerEngine.ExpireDue: collects the due records first and retires them afterwards, where the source retires while it
  walks; that walking and deleting yields the same set is `DeadlineIndexes.DeadlineIndex.Sweep`.
- Redis, the database and asyncio themselves: a key is an optional value, a row a record with a guarded update, and a
  per-asset lock makes a call one step apart from losses inside it, because publishing for one asset never overlaps
  itself.
- Quiesce.DrainedNeverReturnsToLegacy: processes and the database share one clock; the precision of start times is left
  out. A reader that finds no table at all is not modelled, since the table is there once a halt was committed.
- CompareWrites.ReferenceDiffersExactlyWhen: compares the two forms on texts that both decoders read alike; depth limits
  and lone surrogates, where the decoders themselves may differ, are left out.
- Migration.PassIsSafe: a version 2 key that matches the migration's pattern without being a revision key is marked as
  such in the input, since digits of other scripts are not modelled one by one.
- AuthExecutor.CountersNeverNegative: assumes that a submission that raises has enqueued nothing; times, outcome names and
  the start and shutdown of the pool are left out, except that shutting down cancels what is queued.
- Coordinators.NoDoublePublish: is about one process life; a restart forgets markers and issued numbers. The lineage
  provider and the clock do not raise, as in `app/atomic_fx_live.py:215-263`.
- NoticeDelivery.AttemptsAreBounded: the bookkeeping of an unsent notice does not raise.
- ConfigObservers.AnswersAreStable: damage to the tracking tables themselves is not modelled; failures of hooks are.
- JSON, SHA-256, float formatting, time zones, backoff and retry budgets, `app/collection_slots.py`, publishers, telemetry
  and admin status: values are abstract, digests are the objects they hash, and the rest would only add easy members.
