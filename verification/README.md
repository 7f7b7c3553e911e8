# Verified models of the goal store, the runtime state machines and the bounded reducers

Dafny models of the parts of PulSeed that keep state: the crash-safe goal store (write-ahead log, compaction, replay, staged
archive, traversal of the goal graph), the runtime protocols around time and concurrency (leases, the leader lock, the
watchdog, log rotation, approvals, tool scheduling), and the arithmetic and reducer cores (prompt budget, tool pool, chat
events, ISO week). `dafny verify dfyconfig.toml` checks everything.

## How the model is built

| module | what it models |
|---|---|
| `StateFiles` | the files of a goal, the logged operations, what a write and a replay put where |
| `StateWal` | the log, compaction and recovery as sequences of single disk effects, cut anywhere |
| `GoalWrites` | a machine of interleaved protected writes, crashes and cut recoveries |
| `WriteConditions` | the requests for which crash atomicity holds, and a failing run for every other one |
| `StateDisk` | classes whose methods perform those effects one by one until the process dies |
| `GoalArchive`, `GoalArchiveTree` | the staged archive of one goal as disk steps; the recursion over children under locks |
| `Graphs`, `GoalDelete`, `GoalBfs` | reachability; recursive delete; breadth-first collection |
| `GoalLeases`, `LeaderLock` | leases with a moving clock, fresh tokens and dying processes |
| `Watchdog`, `LogRotation`, `ToolConcurrency` | the restart loop and child monitor, the logger, the concurrency controller |
| `Approvals`, `ApprovalWaiters` | the approval broker with its store, its broadcasts and its verdicts; what becomes of a waiter |
| `StableSort`, `PromptBudget`, `ToolRegistry` | stable sorting, the two-pass trimmer, registration and the tool pool |
| `ChatMessages`, `IsoWeek` | the chat event reducer, the week label |

A crash is a budget of effects: a plan is the list of single appends, writes, renames, copies and removes that an operation
performs, and every theorem about crashes speaks of all prefixes of it. The methods carry the budget in a field and are proved
to perform exactly the prefix that the budget allows; the theorems are about the plans. Where the code keeps objects that it
updates in place, the model has a class whose methods are tied to a state function, and the theorems are about all runs of
that function.

## What does not hold, and exactly when it does

- A replay takes the directory from the id inside the logged data and skips an empty id. It repeats the write if and only if
  the data names the goal in whose log it stands (`ReplayMatchesWrite`); recovering one intent does what its write would have
  done if and only if, besides, the write does not replace that very log (`RecoveryRedoesTheWriteIffNamed`).
- Crash atomicity survives a request if and only if the request throws before its intent or is admissible
  (`AtomicIffAdmissible`). Admissible means: the goal's id is the name of one directory, since recovery lists the directories
  in `goals/` and never finds the log of an id like `x/y` (`UnlistedBreaks`); and a raw write stays in the goal's directory
  (`StrayingWriteBreaks`), keeps off the log (`LogWriteBreaks`), its temporary (`TemporaryBreaks`) and the lock
  (`OwnLockBreaks`, `HeldLockBreaks`), and plants no observation log and no goal that names another goal (`PlantedLogBreaks`,
  `PlantedGoalBreaks`).
- A raw write to a log leaves a document that the next line is appended to. From then on the log cannot be read, and no
  recovery of any goal ever completes (`LogWriteEndsRecovery`, `TornLogEndsRecovery`); a replay of such a write that is cut
  keeps recovery from the goals after it (`PendingLogWriteExample`).
- Archiving visits children through a function that never marks them as visited. A reachable cycle of child links makes the
  run wait for its own lock until it times out, and a live `goal.json` that is not a goal makes it throw, because the promise
  of the load is returned instead of awaited and so escapes the handler that is meant to skip it. It throws if and only if one
  of the two is reachable (`GoalArchiver.ArchiveGoal`, `MutualChildrenCannotBeArchived`). Deleting throws if and only if such
  a document is reachable (`GoalRemover.DeleteGoalFromRoot`).
- Archiving beside a half-made archive removes that archive before the live directory is copied. The goal still loads if and
  only if the copy that is kept is readable (`StillLoadsIffKeptCopyReadable`), and its tasks stay listed if and only if they
  did not come from the half-made archive (`TasksStayIffNotHidden`).
- Deleting removes one location. The goal still loads afterwards if and only if it was stored live with a readable archived
  copy beside it (`LoadsAfterRemoval`).
- Resolving an approval that is no longer pending returns the earlier record instead of nothing, so a late call broadcasts
  again. An approval is broadcast at most once if and only if no call for it came late (`SingleBroadcastIffNoLateAnswer`), and
  store, broadcasts and waiter agree if and only if no late call carried another verdict (`AgreementIffNoContradiction`,
  `ResponseAndTimeoutDisagree`).
- A start tracks what it has listed, over whatever session there is. A waiter can be lost for good, if and only if it was
  dropped by a stop or such a start (`WaiterLostIffDropped`, `RestartCanLoseWaiter`).
- A call that arrives between a wake-up and its resumption can push the running calls over the limit. Running and woken calls
  together stay within it if and only if no call does (`LimitKeptIffNoBargingIn`, `BargingInIsTheOnlyWay`,
  `LimitOfOneExceeded`).
- A registration that throws half-way leaves its tool behind; unregistering that tool takes the alias from its owner
  (`FailedRegistrationStealsAlias`, `UnregisterTakesOwnAliasesOnly`), which cannot happen without such a registration
  (`CleanRunsKeepOwnership`). An alias hides a tool registered later under the same name (`AliasShadowsLaterTool`,
  `FoundByNameIffNotShadowed`).
- With a size limit of 0 the logger never writes a line; with any other limit every completed rotation writes some of the
  queue (`ZeroLimitWritesNothing`, `RotationShortensQueueIff`, `QueueIsWrittenIff`).
- The restart storm breaker counts too few exits if and only if one that lies within the last window was outside the window
  of one in between, which needs a clock that steps back across it (`PrunedIsWholeHistoryIff`, `StormMissedIffForgotten`,
  `ClockJumpUndercounts`).
- `Date.UTC` reads years 0 to 99 as 1900 to 1999. The week label is the standard's (section 3.2.2 of ISO 8601:2004) if and
  only if neither the date's year nor its week's year is one of these (`LabelRightOffTwoDigitYears`).

## Model

| member | source | states |
|---|---|---|
| StateFiles.ReplayMatchesWrite | src/base/state/state-manager-wal.ts:37-115 | for every logged operation: replaying it writes what its write function wrote if and only if the data names the goal in whose log it stands |
| StateFiles.BuiltOpNamesGoal | src/base/state/state-manager.ts:422-531 | the data that the public operations build on files that are well named, from a goal loaded live or from its archive, names the goal, and its writes stay in the goal's directory, off the log, its temporary and the lock |
| StateFiles.AcceptableIffSomeFiles | src/base/state/state-manager.ts:422-531 | a request gets as far as its intent on some well named files if and only if its arguments allow it: an entry names the goal, and an update keeps the id of some goal |
| StateFiles.PerformStores | src/base/state/state-manager.ts:422-531 | said of the files alone, for every request on every file set: an observation or gap entry is appended to the former ones, of all these the last 500 are stored; with it goes the update of the goal as it loaded; saves, pace snapshots and raw writes store exactly their document; a request that cannot be carried out changes nothing |
| StateFiles.StoresOne | src/base/state/state-manager.ts:422-531 | and this determines the files afterwards |
| StateFiles.PerformKeepsWellNamed | src/base/state/state-manager.ts:219-253 | every admissible request leaves each stored goal and observation log naming the goal in whose directory it lies, and no document in place of a log, its temporary or a lock |
| StateFiles.RedoPuts | src/base/state/state-manager-wal.ts:71-82 | whatever part of a multi-file apply is already on disk, doing all of it again gives the same files |
| StateWal.CommitRemovesItsIntentOnly | src/base/state/state-wal.ts:61-87 | committing the first pending intent takes off that intent alone if and only if no other pending intent has its timestamp |
| StateWal.CompactionPreservesPending | src/base/state/state-wal.ts:89-119 | at every cut of compaction the ordered list of uncommitted intents is unchanged; complete, the log is that list and one marker; a log that cannot be read is not touched |
| StateWal.CompactionPreservesRecovery | src/base/state/state-wal.ts:89-119 | recovery after a compaction cut anywhere redoes the same items and produces the same files |
| StateWal.RedoOne | src/base/state/state-wal.ts:61-87 | over all goals' logs, redoing the first pending item takes it and nothing else off the list of what recovery has to do |
| StateWal.PartOfRedo | src/base/state/state-manager-wal.ts:71-82 | a crash inside one redo leaves some of its puts and no commit |
| StateWal.CutInsideRedo | src/base/state/state-manager-wal.ts:71-82 | for every operation, doing the item again after such a crash gives the store of doing it once |
| StateWal.InterruptedRecovery | src/base/state/state-manager-wal.ts:14-34 | with distinct pending timestamps and no pending raw write to a log, a recovery over any logs cut after any effect and then run again leaves the store of an uninterrupted one |
| StateWal.RecoveryConverges | src/base/state/state-manager-wal.ts:14-34 | the same for any number of cuts, and afterwards recovery has nothing to do |
| StateWal.RecoveryLeavesNothingPending | src/base/state/state-wal.ts:61-87 | a complete recovery leaves nothing that another one would redo |
| GoalWrites.CrashAtomicity | src/base/state/state-manager-goal-write.ts:53-136 | in every run of interleaved admissible writes, crashes between any two effects and cut recoveries, whenever a process is up with no write in flight the files are the last of a history in which each request whose intent reached a log, in order, stored on the files before it what `PerformStores` says, and nothing else; and at every point every log can be read and belongs to a goal that recovery finds |
| GoalWrites.RecoveryAfterAnyRun | src/base/state/state-manager-goal-write.ts:53-136 | from whatever any such run left behind, recovery gives exactly the files of that history of the logged requests, leaves nothing pending and meets no log that it cannot read |
| WriteConditions.AtomicIffAdmissible | src/base/state/state-manager-goal-write.ts:53-136 | atomicity survives a request, in all runs whose other requests are admissible, if and only if the request throws before its intent or is admissible: the id is one directory's name, and a raw write stays in it, keeps off the log, its temporary and the lock, and plants no goal or observation log that names another goal |
| WriteConditions.WriteCompletes | src/base/state/state-manager-goal-write.ts:53-136 | a request that can be built, on an idle process with its lock free, has a run in which it is logged and performs the whole plan that `ProtectedWrite` is proved to perform |
| WriteConditions.UnlistedBreaks | src/base/state/state-manager.ts:328-336 | for every acceptable request on an id that is no directory's name there is a run in which recovery does not find its intent |
| WriteConditions.LogWriteBreaks | src/base/state/state-wal.ts:33-41 | for every raw write to a log there is a run in which the next line is appended to the document |
| WriteConditions.LogWriteEndsRecovery | src/base/state/state-wal.ts:43-59 | after it and a crash, no continuation of any kind brings a process up again |
| WriteConditions.TornLogEndsRecovery | src/base/state/state-wal.ts:43-59 | whenever the log of one listed goal cannot be read and the process is down, it stays down in every run |
| WriteConditions.PendingLogWriteExample | src/base/state/state-wal.ts:61-87 | a replay of a raw write to a log, cut before its commit, keeps the next recovery from another goal's intent |
| WriteConditions.TemporaryBreaks | src/base/state/state-wal.ts:109-113 | for every raw write to the temporary of a log there is a run in which the hundredth write takes it away |
| WriteConditions.OwnLockBreaks | src/base/state/state-lock.ts:135-157 | a raw write to the lock that it holds itself throws after its intent was logged |
| WriteConditions.HeldLockBreaks | src/base/state/state-lock.ts:135-157 | so does one to the lock of another goal while a write on that goal is in flight |
| WriteConditions.PlantedGoalBreaks | src/base/state/state-manager.ts:521-531 | for every raw write that plants a goal of another id, live or archived, there is a run in which a logged pace snapshot of it is lost |
| WriteConditions.StrayingWriteBreaks | src/base/state/state-manager.ts:693-716 | for every raw write to an ordinary file in the directory of another goal there is a run in which recovery undoes a later write |
| WriteConditions.PlantedLogBreaks | src/base/state/state-manager.ts:693-716 | for every raw write that plants an observation log of another goal there is a run in which a logged append is lost |
| WriteConditions.RecoveryRedoesTheWriteIffNamed | src/base/state/state-manager-wal.ts:37-115 | recovery of one pending intent does what its write would have done on every file set if and only if the data names the goal and the write does not replace the log itself |
| WriteConditions.MisnamedLogExample | src/base/state/state-manager.ts:422-440 | an append whose stored log names another goal is lost when the process dies after its intent |
| StateDisk.Disk.AppendWalRecord | src/base/state/state-wal.ts:33-41 | appends one record to the goal's log, or dies having changed nothing |
| StateDisk.Disk.WriteFn | src/base/state/state-manager.ts:219-253 | performs the file replacements of the operation one by one up to the crash |
| StateDisk.Disk.ReplayIntent | src/base/state/state-manager-wal.ts:37-115 | performs the replay's file replacements one by one up to the crash |
| StateDisk.Disk.CommittedTimes | src/base/state/state-wal.ts:67-70 | collects exactly the timestamps that the log's commits refer to |
| StateDisk.Disk.Remaining | src/base/state/state-wal.ts:103-108 | keeps exactly the intents without a commit, in order |
| StateDisk.Disk.ReplayWal | src/base/state/state-wal.ts:61-87 | redoes and commits the pending intents of one log in order, up to the crash, and counts them; throws, without effect, exactly on a log that cannot be read |
| StateDisk.Disk.CompactWal | src/base/state/state-wal.ts:89-119 | performs the four effects of compaction in order up to the crash; throws, without effect, exactly on a log that cannot be read |
| StateDisk.Disk.RecoverWal | src/base/state/state-manager-wal.ts:14-34 | when no pending intent is a raw write to a log: performs the recovery plan over all goals, computed from the logs found at the start, up to the crash or to the first log that cannot be read, where it throws |
| StateDisk.GoalWriteCoordinator.SetWriteFence | src/base/state/state-manager-goal-write.ts:28-30 | the goal's fence is replaced and no other |
| StateDisk.GoalWriteCoordinator.ClearWriteFence | src/base/state/state-manager-goal-write.ts:32-34 | the goal's fence is gone and every operation on it allowed |
| StateDisk.GoalWriteCoordinator.ProtectedWrite | src/base/state/state-manager-goal-write.ts:53-85 | refused exactly by the fence and then without effect; else intent, writes, commit and every hundredth time compaction, in this order up to the crash; it fails only at its own lock, after the intent, or in the compaction; the count grows only with a completed logged write |
| StateDisk.GoalWriteCoordinator.ProtectedReadModifyWrite | src/base/state/state-manager-goal-write.ts:103-136 | the data is built from the files as they are under the lock, and what a completed request leaves in them is what `PerformStores` says; data that cannot be built, or is refused, leaves everything as it was; the count grows only with a completed logged write |
| GoalArchive.StagePlanBuilds | src/base/state/state-manager-goal-state.ts:266-294 | staging ends with all five parts and the marker beside the untouched live parts and no visible archive |
| GoalArchive.CutStates | src/base/state/state-manager-goal-state.ts:215-300 | after any prefix of the archive steps the goal is either uncommitted with its live parts untouched, or committed with the final archive; the full run reaches the target |
| GoalArchive.ArchiveConverges | src/base/state/state-manager-goal-state.ts:215-300 | any number of runs cut after any number of steps, then a complete one, end where one uninterrupted run does |
| GoalArchive.ArchiveIsWhole | src/base/state/state-manager-goal-state.ts:215-300 | a completed archive of a live goal: staging empty, nothing live, the marker set; the archived directory has exactly the live names but `.lock`, each with its former document, except that a `goal.json` that is a goal has the status archived; the other four parts are as they were |
| GoalArchive.ArchivedFileByFile | src/base/state/state-manager-goal-state.ts:186-300 | from every state in which the goal is found, which documents stand in which file of the archive after a run to its end; where only a half-made archive holds the goal, live tasks, strategies, stalls and reports are laid over it name by name |
| GoalArchive.LoadedIffDocument | src/base/state/state-manager.ts:255-278 | a goal loads by the first document that parses: of the complete archive, then the live one, then of any archive |
| GoalArchive.ChildrenAsDocumented | src/base/state/state-manager-goal-state.ts:120-152 | the children visited are those that this document lists, or the archived one once the archive is complete or nothing is live; the children cannot be read exactly if the live goal loads by a document that is no goal |
| GoalArchive.ArchivedStays | src/base/state/state-manager-goal-state.ts:242-247 | archiving an archived goal again changes nothing, wherever it is cut |
| GoalArchive.ArchiveSafety | src/base/state/state-manager.ts:255-278 | throughout any cut runs, loading gives the original or the archived goal, never the live one again after the archived one, and the listed tasks stay the same unless they came from a half-made archive |
| GoalArchive.TasksStayIffNotHidden | src/base/state/state-manager.ts:343-353 | through all cut runs the listed tasks stay the same if and only if they do not come from a half-made archive |
| GoalArchive.TasksListed | src/base/state/state-manager.ts:343-353 | listed are the documents of tasks under names in `.json` but two, of the live directory or, when it has none, of the archive |
| GoalArchive.StillLoadsIffKeptCopyReadable | src/base/state/state-manager-goal-state.ts:242-297 | archiving a goal that loads leaves one that loads if and only if the copy that it keeps is readable, the archived one or the live one by the state it is found in |
| GoalArchive.CutKeepsChildren | src/base/state/state-manager-goal-state.ts:120-152 | a cut run leaves the children that the next run will visit as they were or hides them all, and never makes them unreadable |
| GoalArchive.CutCanHideChildren | src/base/state/state-manager-goal-state.ts:266-271 | a live directory without goal.json beside a half-made archive: cut after two steps, the next run sees no children |
| GoalArchiveTree.CutFollows | src/base/state/state-manager-goal-state.ts:215-300 | a cut keeps a goal on its way: same final state, same children unless they are hidden |
| GoalArchiveTree.ChildrenClear | src/base/state/state-manager-goal-state.ts:238-240 | with no walk from the children back to a goal, none reaches a goal that is locked while it is visited, since every caller leads to it |
| GoalArchiveTree.GoalArchiver.Perform | src/base/state/state-manager-goal-state.ts:242-297 | performs the goal's own archive steps one by one up to the crash |
| GoalArchiveTree.GoalArchiver.ArchiveGoalState | src/base/state/state-manager-goal-state.ts:215-300 | under the locks of its callers: what is reachable is archived or the reason is a repeated lock, an unreadable goal or a crash; nothing else changes; a stated number of steps is enough for it not to crash |
| GoalArchiveTree.GoalArchiver.ArchiveLocked | src/base/state/state-manager-goal-state.ts:220-298 | the block under the goal's lock, children before the goal itself |
| GoalArchiveTree.GoalArchiver.VisitChildren | src/base/state/state-manager-goal-state.ts:139-152 | visits the children in order, each to its end, and leaves the goal itself untouched |
| GoalArchiveTree.GoalArchiver.ArchiveGoal | src/base/state/state-manager.ts:305-319 | throws if and only if a cycle of child links or an unreadable goal is reachable; otherwise everything reachable is archived, everything else untouched, and all locks are free |
| GoalArchiveTree.GoalArchiver.ArchiveThroughCrashes | src/base/state/state-manager-goal-state.ts:215-300 | started again after each crash, from any store, the run that completes leaves the whole reachable store as one uninterrupted run does and all else as it was, said of links in the stored documents and file by file; a last run that is left a stated number of steps does complete, and says that there is no such goal exactly if no live directory, complete archive or archived document of it was there |
| GoalArchiveTree.ArchivedAsLinked | src/base/state/state-manager-goal-state.ts:215-300 | archiving what the child graph reaches is archiving, file by file, every goal to which links in the stored documents lead, and no other |
| GoalArchiveTree.CannotArchiveIff | src/base/state/state-manager-goal-state.ts:120-152 | a reachable cycle or unreadable goal is a chain of such links that comes back, or leads to a live document that parses and is no goal |
| GoalArchiveTree.MutualChildrenCannotBeArchived | src/base/state/state-manager-goal-state.ts:238-240 | two stored goals that name each other as children form a reachable cycle from either, so archiving throws |
| GoalDelete.LoadsAfterRemoval | src/base/state/state-manager.ts:280-290 | after the removal the goal still loads if and only if it was live with a readable archived copy |
| GoalDelete.GoalRemover.DeleteGoal | src/base/state/state-manager.ts:280-290 | depth-first over a shared visited set: the newly visited goals are reachable, closed under children, and exactly they lose their directory, unless a read throws |
| GoalDelete.GoalRemover.DeleteGoalFromRoot | src/base/state/state-manager.ts:280-290 | terminates on any graph; every stored goal to which links in the documents that the goals load by lead from the root loses its live directory, or its archive if it had no live one, and nothing else changes; throws if and only if such links lead to a live goal that loads by a document that is no goal, and then only some reachable goals are gone |
| GoalDelete.WithoutTreeIsLost | src/base/state/state-manager.ts:280-290 | removing what the child graph reaches is removing what those links lead to |
| GoalDelete.ChildrenLostToo | src/base/state/state-manager.ts:280-290 | the root loses its location, and with any goal every stored child that it listed |
| GoalDelete.ThrowsIffUnreadable | src/base/state/state-manager-goal-state.ts:120-152 | the delete throws over the graph exactly if an unreadable goal is linked |
| GoalBfs.HeadDistance | src/base/state/state-manager.ts:547-550 | the level at which an unvisited head was queued is its distance from the root |
| GoalBfs.VisitKeepsInv | src/base/state/state-manager.ts:547-562 | visiting the head keeps the queue in level order, its levels witnessed by walks, and every child of a visited goal visited or queued |
| GoalBfs.VisitedAll | src/base/state/state-manager.ts:539-565 | with the queue used up exactly what is reachable has been visited |
| GoalBfs.BfsCollect | src/base/state/state-manager.ts:539-565 | terminates on cyclic graphs; null if and only if nothing loads under the root; throws if and only if links in the loaded documents lead to one that is no goal; else each goal that loads and is linked from the root exactly once, root first, none farther from it than a later one |
| GoalBfs.SubtreeIsCollected | src/base/state/state-manager.ts:539-565 | reachability, distance and loading in the child graph are those of links in the documents that the goals load by |
| GoalBfs.UnparsableIffLinked | src/base/state/state-manager.ts:539-565 | an unparsable goal is reachable exactly if such links lead to a document that is no goal |
| Graphs.ClosedHoldsReach | src/base/state/state-manager.ts:539-565 | a set closed under child links holds everything reachable from its members |
| GoalLeases.GoalLeaseManager.Acquire | src/runtime/goal-lease-manager.ts:159-172 | refused exactly while the record is unexpired; else the record is the new lease, which ends at the given time plus the time asked for, and all other goals are as before; the same as one event of the run model |
| GoalLeases.GoalLeaseManager.Renew | src/runtime/goal-lease-manager.ts:174-196 | only the unexpired owner renews, to the given time plus the time asked for, and only the end and the renewal time change |
| GoalLeases.GoalLeaseManager.Release | src/runtime/goal-lease-manager.ts:198-208 | removes the record exactly for its owner token |
| GoalLeases.GoalLeaseManager.ReapStale | src/runtime/goal-lease-manager.ts:214-245 | removes and reports the expired records among the entries, in order, and no others |
| GoalLeases.Exclusivity | src/runtime/goal-lease-manager.ts:159-245 | at every point of every run at most one token holds a goal, and it is the one in the record |
| GoalLeases.GrantedIffFree | src/runtime/goal-lease-manager.ts:159-196 | in every reachable state an attempt succeeds if and only if nobody holds the goal, and a renewal if and only if the token holds it |
| GoalLeases.LeaseLastsAsAsked | src/runtime/goal-lease-manager.ts:148-172 | over all runs: a lease granted at `now` for `leaseMs`, neither renewed nor released, holds the goal and keeps every attempt out at every clock before `now + leaseMs`; from then on it does not, and an attempt succeeds unless another token holds the goal |
| GoalLeases.RenewalLastsAsAsked | src/runtime/goal-lease-manager.ts:174-196 | and a renewal makes it last `leaseMs` from the renewal |
| GoalLeases.FreedByReleaseOrTime | src/runtime/goal-lease-manager.ts:159-208 | a release by the holder, or its time passing, lets the next attempt succeed |
| GoalLeases.Fencing | src/runtime/goal-lease-manager.ts:174-208 | a token whose record was replaced or removed can never renew, release or hold again |
| GoalLeases.TenuresNeverInterleave | src/runtime/goal-lease-manager.ts:159-245 | once another token has held the goal, the former holder never holds it again |
| GoalLeases.SweepIsReaps | src/runtime/goal-lease-manager.ts:214-245 | a sweep is a run of single reaps, so the results above cover it |
| GoalLeases.SweepRemovesExpired | src/runtime/goal-lease-manager.ts:214-245 | a sweep over distinct entries removes exactly the expired records among them and answers them in order |
| LeaderLock.LeaderLockManager.Acquire | src/runtime/leader-lock-manager.ts:140-156 | refused exactly while the record is unexpired and its process lives; else the record names this process, until the given time plus the time asked for |
| LeaderLock.LeaderLockManager.Renew | src/runtime/leader-lock-manager.ts:158-176 | only the unexpired owner renews, to the given time plus the time asked for |
| LeaderLock.LeaderLockManager.Release | src/runtime/leader-lock-manager.ts:178-188 | removes the record exactly for its owner token |
| LeaderLock.LeaderLockManager.ReapStale | src/runtime/leader-lock-manager.ts:194-204 | removes and returns the record exactly when it has expired |
| LeaderLock.OneLiveLeader | src/runtime/leader-lock-manager.ts:140-204 | at every point of every run at most one live process leads, under one token, and the record names it |
| LeaderLock.Fencing | src/runtime/leader-lock-manager.ts:158-188 | a deposed token can never renew, release or lead again |
| LeaderLock.OnlyDeathOrExpiryFrees | src/runtime/leader-lock-manager.ts:140-156 | a live leader can renew and keeps everyone out, and when nobody leads the next attempt gets the lock |
| LeaderLock.LeadLastsAsAsked | src/runtime/leader-lock-manager.ts:140-156 | over all runs: leadership granted at `now` for `leaseMs`, neither renewed nor released, lasts while its process lives until exactly `now + leaseMs`, and keeps every attempt out so long; afterwards an attempt succeeds unless another leads |
| LeaderLock.RenewalLastsAsAsked | src/runtime/leader-lock-manager.ts:158-176 | and a renewal makes it last `leaseMs` from the renewal |
| LeaderLock.FreedByReleaseTimeOrDeath | src/runtime/leader-lock-manager.ts:140-188 | a release, its time passing or the death of its process lets the next attempt succeed |
| Watchdog.PrunedIsWholeHistoryIff | src/runtime/watchdog.ts:154-158 | for the times of one never-healthy streak: the list pruned step by step is the list within the last window if and only if no exit of that window was outside the window of one in between; otherwise it is shorter |
| Watchdog.StormMissedIffForgotten | src/runtime/watchdog.ts:154-162 | at some maximum the breaker misses a storm of the whole history if and only if its streak has forgotten such an exit |
| Watchdog.ForwardClockIsEnough | src/runtime/watchdog.ts:154-158 | a clock that does not go back makes it forget nothing |
| Watchdog.BackoffStep | src/runtime/watchdog.ts:163 | doubling and capping step by step is min(base * 2^k, max) |
| Watchdog.RestartLoop | src/runtime/watchdog.ts:121-176 | for any clock: the circuit opens at the first exit whose pruned count reaches the maximum, which is a storm of the whole history, and every storm opens it when nothing was forgotten; every delay is the one that the whole history asks for |
| Watchdog.StreakSinceHealthy | src/runtime/watchdog.ts:142-158 | the streak is the exits since the last healthy one, in order |
| Watchdog.WithinFilters | src/runtime/watchdog.ts:154-158 | pruning keeps, in order, exactly the times at most the window ago |
| Watchdog.ClockJumpUndercounts | src/runtime/watchdog.ts:154-158 | a concrete streak where a clock that jumps ahead and back makes the list shorter than the window |
| Watchdog.MonitorChild | src/runtime/watchdog.ts:220-361 | the child is killed at the first poll, after its grace time, that sees no fresh heartbeat of a leader, or ends as many failed probes in a row as the threshold asks for, and for that reason; it counts as healthy if and only if an earlier poll saw it so |
| Watchdog.JudgementIff | src/runtime/watchdog.ts:220-361 | the judgement on a history of polls is a kill for a reason exactly if the last poll calls for it in those terms |
| LogRotation.Logger.WriteToFile | src/runtime/logger.ts:151-187 | a line goes to the queue while a rotation is pending or starts one at the limit, else to the current file |
| LogRotation.Logger.ShiftFiles | src/runtime/logger.ts:244-260 | whatever numbers are in use, the descending renames move every file up by one, drop the one at the end and leave those beyond it; a single rotated file stays if there is no current one |
| LogRotation.Logger.CompleteRotation | src/runtime/logger.ts:235-283 | shifts the files, opens an empty one and writes the queued lines, which may start the next rotation |
| LogRotation.RotationKeepsLines | src/runtime/logger.ts:235-283 | a rotation keeps every line in order but those of the file at the end, and file i becomes file i + 1 |
| LogRotation.NothingLostOutOfOrder | src/runtime/logger.ts:151-283 | from any directory that a logger may have left, after any interleaving of log calls and completions: dropped lines, rotated files oldest first, current file and queue are what was there and all accepted lines in order; at most maxFiles rotated files; each file below the limit but for its last line |
| LogRotation.RotatedFilesAreFull | src/runtime/logger.ts:151-187 | in every run of a fresh logger each rotated file has reached the limit, with its last line and not before |
| LogRotation.FreshLoggerIsEmpty | src/runtime/logger.ts:151-283 | an empty directory is such a start and holds no line |
| LogRotation.OnlyTheOldestIsDropped | src/runtime/logger.ts:244-257 | lines are dropped only by a rotation that finds all files there, and then they are the oldest file |
| LogRotation.RotationShortensQueueIff | src/runtime/logger.ts:151-187 | a completed rotation with queued lines leaves fewer of them if and only if the limit is not 0 |
| LogRotation.QueueIsWrittenIff | src/runtime/logger.ts:151-187 | queued lines all get written, when rotations complete often enough, if and only if the limit is not 0 |
| LogRotation.ZeroLimitWritesNothing | src/runtime/logger.ts:201-229 | with a limit of 0 a fresh logger writes no line and all stay queued |
| Approvals.ApprovalStore.SavePending | src/runtime/store/approval-store.ts:114-122 | a record already resolved is not made pending again |
| Approvals.ApprovalStore.ResolvePending | src/runtime/store/approval-store.ts:134-150 | moves a pending record to resolved; for one resolved before it answers with that record and changes nothing |
| Approvals.ApprovalBroker.RequestApproval | src/runtime/approval-broker.ts:90-130 | tracks the session with its timer and waiter while the save is under way |
| Approvals.ApprovalBroker.OnSaved | src/runtime/approval-broker.ts:112-117 | announces the approval only if its session is still there and not being finalized |
| Approvals.ApprovalBroker.OnSaveFailed | src/runtime/approval-broker.ts:118-125 | forgets the session and rejects the waiter; calls that waited for the save go on |
| Approvals.ApprovalBroker.FinalizeBegins | src/runtime/approval-broker.ts:180-198 | waits for the save exactly when the session has one; else takes the session, its timer and its waiter off the books at once; nothing else changes |
| Approvals.ApprovalBroker.ResolveApproval | src/runtime/approval-broker.ts:132-143 | a response finalizes its approval with the verdict given |
| Approvals.ApprovalBroker.OnTimeout | src/runtime/approval-broker.ts:163-178 | a timer that fires finalizes its approval as expired |
| Approvals.ApprovalBroker.ExpireLapsed | src/runtime/approval-broker.ts:68-78 | a start finalizes a listed record whose time is over as expired |
| Approvals.ApprovalBroker.FinalizeEnds | src/runtime/approval-broker.ts:200-223 | if the store knows the approval, the waiter that was taken gets its result and there is one broadcast, both with the verdict of this call; a pending record is stored with it, one resolved before stays |
| Approvals.ApprovalBroker.StopBroker | src/runtime/approval-broker.ts:82-88 | forgets all sessions and timers and leaves calls, store and saves alone |
| Approvals.ApprovalBroker.ListPending | src/runtime/approval-broker.ts:67 | a start finds the records that are pending at that time |
| Approvals.ApprovalBroker.TrackRestored | src/runtime/approval-broker.ts:152-178 | tracks a listed record with a timer and without a waiter, in place of any session it has |
| Approvals.RequiredNeverFollowsResolved | src/runtime/approval-broker.ts:111-117 | in every run, restarts included, an approval is never announced as required after its resolution |
| Approvals.WaiterAnsweredOnce | src/runtime/approval-broker.ts:193-215 | each waiter gets at most one result and a stored verdict never changes |
| ApprovalWaiters.WaitersAccounted | src/runtime/approval-broker.ts:61-223 | conservation over all runs: each requested waiter is held by its session or one call, or was answered, or dropped, or rejected, exactly once in all |
| ApprovalWaiters.WaiterLostIffDropped | src/runtime/approval-broker.ts:61-223 | a waiter is lost for good if and only if its save has ended without failing and a stop or a start that tracks its record anew found it in its session |
| ApprovalWaiters.StoreAnswersWaiter | src/runtime/approval-broker.ts:180-198 | in every run the store has a record for the call that holds a waiter |
| ApprovalWaiters.LostStaysLost | src/runtime/approval-broker.ts:61-223 | whatever happens next, it stays lost |
| ApprovalWaiters.RestartCanLoseWaiter | src/runtime/approval-broker.ts:61-79 | a request saved while a start is still listing loses its waiter when the start tracks it |
| Approvals.BroadcastsCounted | src/runtime/approval-broker.ts:200-223 | the number of resolved broadcasts is one for the stored verdict plus one for each late call |
| Approvals.SingleBroadcastIffNoLateAnswer | src/runtime/approval-broker.ts:200-223 | at most one broadcast if and only if no call reached the store after another had resolved the approval |
| Approvals.AgreementIffNoContradiction | src/runtime/approval-broker.ts:193-223 | store, broadcasts and waiter agree if and only if no late call carried another verdict |
| Approvals.RaceIsReachable | src/runtime/approval-broker.ts:152-198 | a response and the timeout can both wait for the same save |
| Approvals.ResponseAndTimeoutDisagree | src/runtime/approval-broker.ts:180-223 | from there the waiter can be told yes although the store says expired |
| ToolConcurrency.ConcurrencyController.RunBegins | src/tools/concurrency.ts:26-30 | a call queues exactly when the limit is reached |
| ToolConcurrency.ConcurrencyController.WaitEnds | src/tools/concurrency.ts:32 | a woken call enters without looking at the limit again |
| ToolConcurrency.ConcurrencyController.EnterCall | src/tools/concurrency.ts:32-42 | a shell call aborts the registered one of its directory and takes its place |
| ToolConcurrency.ConcurrencyController.RunEnds | src/tools/concurrency.ts:46-60 | unregisters only its own shell and wakes the first in the queue |
| ToolConcurrency.NoLostWakeUp | src/tools/concurrency.ts:21-62 | whenever a call is queued, running and woken calls number at least the limit; with none of these the queue is empty |
| ToolConcurrency.OneLiveShellPerDirectory | src/tools/concurrency.ts:34-57 | in every reachable state at most one running shell call of a directory is not aborted, and it is the registered one |
| ToolConcurrency.NewShellTakesOver | src/tools/concurrency.ts:34-42 | a shell call that enters runs on unaborted, and of all other running calls exactly those that were live in its directory are aborted by it; a call that is no shell aborts none |
| ToolConcurrency.FirstComeFirstServed | src/tools/concurrency.ts:26-60 | the calls woken so far and then those queued are the calls that had to wait, in order |
| ToolConcurrency.LimitKeptIffNoBargingIn | src/tools/concurrency.ts:26-32 | running and woken calls together stay within the limit throughout a run if and only if no call enters while woken calls hold its place |
| ToolConcurrency.RunningWithinLimit | src/tools/concurrency.ts:21-62 | in such runs of a fresh controller the running calls never exceed the limit, whoever is resumed next |
| ToolConcurrency.BargingInIsTheOnlyWay | src/tools/concurrency.ts:26-32 | one event makes it possible to exceed the limit if and only if it is a call that arrives below the limit while running and woken calls fill it |
| ToolConcurrency.ResumptionsExceedLimit | src/tools/concurrency.ts:26-32 | resumptions alone can lead above the limit if and only if running and woken calls together exceed it |
| ToolConcurrency.LimitOfOneExceeded | src/tools/concurrency.ts:26-32 | a run with two calls at once under a limit of one |
| StableSort.SortIsStable | src/prompt/context-assembler.ts:539 | sorting by priority is an ordered permutation that keeps equal keys in their former order |
| StableSort.SortOfSorted | src/prompt/context-assembler.ts:560 | sorting a sorted list changes nothing, so restoring the order at the end does not |
| PromptBudget.TrimKeepsBeginning | src/prompt/formatters.ts:17-28 | a text that fits is kept; another is cut to a beginning of at most the budget under the marker, at the last line end in it after the first character or, if there is none, where the budget ends, and exceeds the budget by at most 4 tokens |
| PromptBudget.TrimOvershootsByFour | src/prompt/formatters.ts:17-28 | the bound of 4 is reached for every budget |
| PromptBudget.CategoryWithinLimit | src/prompt/context-assembler.ts:510-533 | after the first pass each category exceeds its limit by at most 4 tokens, and one without allowance keeps nothing |
| PromptBudget.FirstPassKeeps | src/prompt/context-assembler.ts:510-533 | the first pass keeps, in order, exactly the blocks for whose category the earlier kept ones leave something: whole if they fit what is left, else cut to it |
| PromptBudget.FittedWithinBudget | src/prompt/context-assembler.ts:541-557 | the second pass exceeds the budget by at most 4 tokens |
| PromptBudget.FittedIsPrefix | src/prompt/context-assembler.ts:541-557 | what it keeps is a prefix in priority order with only the last block cut, and it stops only when nothing is left |
| PromptBudget.KeptWithinBudget | src/prompt/context-assembler.ts:505-561 | both passes together: the bound, and unchanged if all fits, else that prefix, in priority order |
| PromptBudget.BothPassesKeep | src/prompt/context-assembler.ts:505-561 | without naming either pass: what is kept is the assembled blocks, or what the first pass is to keep of them, if that fits, else the prefix in priority order |
| PromptBudget.JoinedWithinBudget | src/prompt/context-assembler.ts:229-240 | the joined block of n slots exceeds the budget by at most 4 + ceil((n - 1) / 2) tokens |
| PromptBudget.JoinHoldsBlocks | src/prompt/context-assembler.ts:229-240 | the joined text is the kept blocks in order with one empty line between two of them, and nothing else |
| PromptBudget.CapCategories | src/prompt/context-assembler.ts:510-533 | the loop with running totals per category computes the first pass, and keeps exactly the blocks that `FirstPassKeeps` says |
| PromptBudget.FitSorted | src/prompt/context-assembler.ts:541-557 | the loop with a remaining budget computes the second pass: a prefix with only the last block cut |
| PromptBudget.EnforceBudget | src/prompt/context-assembler.ts:505-561 | the whole function keeps what both passes are to keep, and the final sort changes nothing |
| PromptBudget.ApplyBudgetOverrides | src/prompt/context-assembler.ts:244-258 | exactly the overridden categories get their rounded-down share of the budget |
| PromptBudget.LimitsAddUpToShares | src/prompt/context-assembler.ts:244-258 | for any overrides, the limits together are at most the shares together and less than five tokens short of them, so they fit the budget when the shares do |
| ToolRegistry.ToolRegistry.RegisterTool | src/tools/registry.ts:21-33 | a taken name changes nothing; else the tool is last in order, and its aliases are added up to the first that is taken, by a tool, an alias or an earlier one of its own, which is the conflict reported |
| ToolRegistry.ToolRegistry.UnregisterTool | src/tools/registry.ts:35-43 | removes the tool and every alias that it lists, and nothing else; answers whether it was there |
| ToolRegistry.NoAliasDangles | src/tools/registry.ts:21-50 | in every run, half-way registrations included, every alias leads to a registered tool that lists it |
| ToolRegistry.UnregisterUndoesRegister | src/tools/registry.ts:21-43 | after any run, unregistering what was just registered without a conflict restores the whole registry |
| ToolRegistry.UnregisterTakesOwnAliasesOnly | src/tools/registry.ts:35-43 | unregistering leaves all other tools their aliases if and only if the tool lists none that another owns |
| ToolRegistry.CleanRunsKeepOwnership | src/tools/registry.ts:21-43 | in every run without an alias conflict every tool owns all its aliases, so that no unregistering takes an alias from another tool |
| ToolRegistry.FailedRegistrationStealsAlias | src/tools/registry.ts:27-41 | a half-way registration and its removal take an alias from its owner |
| ToolRegistry.FoundByNameIffNotShadowed | src/tools/registry.ts:47-50 | a registered tool is found under its name if and only if the name is no alias of another tool |
| ToolRegistry.AliasShadowsLaterTool | src/tools/registry.ts:21-33 | a tool can be registered under another's alias and is then never found |
| ToolRegistry.Assemble | src/tools/registry.ts:97-124 | every tool that the filter offers, each as often as it is registered, is included or deferred, and no other, always-loaded first; at most max(budget, always-load total) tokens; no deferred tool would fit; and the choice is the greedy one, from the most required tags down, in stable order |
| ToolRegistry.PassesIffOffered | src/tools/registry.ts:57-95 | a tool passes the filter if and only if it is not a metrics writer below trust -50, bears a required tag when there are any, and is not deferred unasked |
| ToolRegistry.RankIsRelevance | src/tools/registry.ts:126-150 | the order of the pool is by number of required tags, most first |
| ToolRegistry.ScoreCounts | src/tools/registry.ts:126-150 | which is the number of required tags that the tool has |
| ToolRegistry.GreedyFits | src/tools/registry.ts:112-121 | the greedy choice keeps the budget and leaves out nothing that would fit in the end |
| ToolRegistry.GreedyTakesInTurn | src/tools/registry.ts:112-121 | each tool in the order offered is taken if it fits beside those taken before it, else deferred |
| ToolRegistry.GreedyPartitions | src/tools/registry.ts:112-121 | every offered tool is taken or deferred, with multiplicity |
| ToolRegistry.GreedyKeepsOrder | src/tools/registry.ts:112-121 | taken and deferred tools stay in the order offered |
| ChatMessages.UpsertKeepsWellFormed | src/interface/chat/chat-event-state.ts:26-38 | replacing or appending keeps ids unique and the list within its cap, and the message is in |
| ChatMessages.RunKeepsWellFormed | src/interface/chat/chat-event-state.ts:234-303 | every event sequence keeps ids unique, the list within its cap, and at most five tool activities with distinct ids |
| ChatMessages.ActivitiesTwice | src/interface/chat/chat-event-state.ts:190-232 | the same tool event again leaves the activities as they are |
| ChatMessages.EventIsIdempotent | src/interface/chat/chat-event-state.ts:234-303 | applying an event twice in a row equals applying it once |
| ChatMessages.ToolEventRecorded | src/interface/chat/chat-event-state.ts:190-232 | a tool event ends as the last entry of its turn's tool log, completed or failed by its success, and waiting exactly while it awaits approval |
| ChatMessages.EventShown | src/interface/chat/chat-event-state.ts:190-303 | for every event, the one message that is shown for it under its id, with its text, time, type and flags; for a tool event the entries of other tools, at most the last four, and then its own |
| ChatMessages.RenderedLines | src/interface/chat/chat-event-state.ts:169-176 | the text of a tool log is a heading and one line for each entry in order |
| ChatMessages.FinalAnswerStands | src/interface/chat/chat-event-state.ts:251-260 | whatever came before, after its final answer a turn has one message under its id with the final text and type, and no transient activity |
| ChatMessages.OthersUntouched | src/interface/chat/chat-event-state.ts:26-46 | every other message of the result was there before, unchanged |
| ChatMessages.OthersStay | src/interface/chat/chat-event-state.ts:26-46 | every other message stays but the oldest of a full list |
| ChatMessages.UpsertReplaces | src/interface/chat/chat-event-state.ts:26-38 | a message under an id that is there takes the place of that one, and the rest stay in theirs |
| ChatMessages.UpsertAppends | src/interface/chat/chat-event-state.ts:26-38 | one under a new id comes last, after as many of the last others as have room |
| ChatMessages.RemoveKeepsOrder | src/interface/chat/chat-event-state.ts:40-46 | removing transient activity keeps the order of the rest |
| ChatMessages.TurnEndCloses | src/interface/chat/chat-event-state.ts:178-188 | after a turn ends its transient activity is gone and its tool log is closed |
| IsoWeek.YearOfWeeks | src/reflection/weekly-review.ts:31-38 | every ISO year has 52 or 53 whole weeks |
| IsoWeek.CalendarDays | src/reflection/weekly-review.ts:31-38 | valid dates are those of months of 28 to 31 days; the day after a date has the next number and weekday, over month and year ends; 1 January 2000 was a Saturday |
| IsoWeek.IsoLabel | src/reflection/weekly-review.ts:31-38 | every day has a label in the standard's sense: its week counted from the week of 4 January of the label's year |
| IsoWeek.LabelUnique | src/reflection/weekly-review.ts:31-38 | and only one: a label is in that sense the day's if and only if it is this one |
| IsoWeek.LabelOfWeek | src/reflection/weekly-review.ts:31-38 | the week is in 1..53 and the label shared by the seven days from Monday to Sunday |
| IsoWeek.NextWeek | src/reflection/weekly-review.ts:31-38 | one week on, the label is week + 1, or week 1 of the next year after week 52 or 53 |
| IsoWeek.DistinctWeeksDistinctLabels | src/reflection/weekly-review.ts:31-38 | labels are equal if and only if the weeks are |
| IsoWeek.LabelIsIso | src/reflection/weekly-review.ts:31-38 | off the two-digit years the computed label is the standard's |
| IsoWeek.LabelRightOffTwoDigitYears | src/reflection/weekly-review.ts:31-38 | for every Gregorian date the computed label is the standard's if and only if neither year involved is in 0..99 |
| IsoWeek.GetISOWeek | src/reflection/weekly-review.ts:31-38 | the steps on the shifted date compute that label |

## Left out

- The mkdir and pid mutexes (`state-lock.ts`, `withMutex`): each locked block is one step; taking over the lock of a dead owner is not modelled. Waiting for a lock that the run itself holds ends in the time-out; recovery is exclusive.
- Write functions that throw after their intent was logged, but for the write that meets a held lock: the runs of `GoalWrites` crash and recover.
- Times of commits and compaction markers, which nothing reads; the intents pending in one log have distinct timestamps, and a new intent's timestamp is not one that a commit of the log refers to.
- Half-written log lines, swallowed ENOENT and schema parsing beyond "is a document of this kind"; an atomic rename write, and a recursive copy or remove, is one step.
- Snapshots, which recovery never reads.
- GoalWrites.CrashAtomicity: requests are admissible or throw before their intent, which is exactly what it needs (`AtomicIffAdmissible`); archiving does not interleave with these writes, so the archive that an update may load its goal from does not change; a pace snapshot is compared with the goal that it has read, without the lock, so it may overwrite what was saved since; replayed writes of an unknown kind do not occur.
- WriteConditions.AtomicIffAdmissible: a raw write's target lies in some goal's directory or is the archived copy of a goal; ids that joining paths would rewrite (an empty, `.` or `..` part in a longer id) and paths below a log, a lock or another file are not modelled, nor are raw writes outside `goals/`, which are not logged. A goal's directory is there when its lock is taken, so that the lock lies in it.
- WriteConditions.TornLogEndsRecovery: a document that stands alone in a log counts as unreadable, although one of a single line would be read as an intent of no kind before the next append; a log that a recovery itself replaces is read as it was at its start.
- StateDisk.Disk.RecoverWal: with a pending raw write to a log it promises nothing.
- GoalArchive.ArchiveSafety: tasks are compared as a set, without their display order.
- GoalArchiveTree.GoalArchiver.ArchiveThroughCrashes: ids are names of directories and none is `.staging`, so that different goals have different directories (a child id that is empty or holds a separator, which the code does not exclude, would reach into others); the write fence on archiving and the time in the archive marker are not modelled; a document that is an object but no goal is not given a status.
- GoalDelete.GoalRemover.DeleteGoalFromRoot: ids are names of directories as above; the empty id, which the code does not exclude, would remove all of `goals/`.
- Lease tokens are fresh, no call uses a time later than the clock (it may be earlier), process ids are not reused and the liveness probe is exact; the attempt id of a lease is not kept.
- Watchdog.RestartLoop: the maximal delay is not negative; spawning, signals, the pid file and stopping in the middle of a sleep are left out.
- LogRotation.NothingLostOutOfOrder: size rotation without stream errors, in a directory whose files are as a logger leaves them; date rotation is left out.
- Approvals.RequiredNeverFollowsResolved: ids are fresh and answered only once requested; taking over a lock of the approval store that is older than 30 seconds is not modelled; reasons, channels and the journal's queue are left out.
- Shell calls are named by their working directory; what a tool does between entering and leaving is left out.
- PromptBudget.ApplyBudgetOverrides: percentages are whole numbers and the share is rounded down exactly, without floating point; strings are sequences of UTF-16 code units.
- ToolRegistry.Assemble: a tool's description does not depend on the directory or goal of the filter.
- ChatMessages.EventIsIdempotent: the classification of a tool, the summary of its arguments and the text of a failure are parts of the event, with the one fact that only a call awaiting approval is classified as waiting.
- IsoWeek.GetISOWeek: the label is a pair of numbers, not the padded text.
- LLM clients, adapters, child processes, webhook servers, chat plugins, configuration, report formatting, the command line and the terminal interface: I/O or single-branch logic.
- Permission and channel policies, task search and the context-budget allocator: ordered branches or plain arithmetic that would only add easy members.
