# Everwas agent: a verified model

A Dafny model of the parts of the Everwas agent whose correctness spans crashes, interleavings or
many attempts, and proofs of what those parts promise. `dafny verify dfyconfig.toml` checks it all.

Files written step by step are modelled as traces: an operation gives the sequence of states it
passes through, a crash or an error that stops it is a prefix of that sequence, and the classes are
proved to pass through exactly those states. Concurrent parts are state machines in which one step
is one locked section, channel handoff or published frame; a theorem about them holds of every run.

- **Self-update** (`Denylist`, `UpdateDisk`, `UpdateOps`, `UpdateSwap`, `UpdateRollback`,
  `UpdateVerdict`, `UpdateLife`, `UpdateRuns`, `UpdateHost`): the updater, the rollback tracker and the `/bin/sh` guard share five
  files and two binaries and may die between any two file steps.
- **Job registry** (`JobRegistry`, `JobRuns`): slots, the in-flight map, the bounded finished set and
  the shutdown drain.
- **Shell** (`ShellParts`, `ShellSession`): flow control with hysteresis and a drop-oldest ring
  between a pump, a monitor, acks and link changes.
- **Scheduler** (`FireHeap`, `Scheduler`, `SchedRuns`): the jittered fire heap, catch-up, rebuild, and
  a firing loop that refills the heap it drains. Cron is a function to a strictly later whole second
  (`Lawful`). A schedule with fixed fires also keeps naming a fire until its time comes (`Earliest`): a
  five-field cron does, "@every" does not, and only the lemmas that say so take it.
- **COM install gate** (`InstallResult`, `ComGate`): callers that may walk away from work that cannot
  be stopped.
- **Network certificate** (`NetCert`, `NetCertRuns`, `NetCertStore`): renewal on Unix and Windows,
  cut anywhere, over many attempts. The digest is a function, injective where a lemma says so.
- **Framing, resume and planning** (`ChunkSink`, `ScriptRunner`, `Download`, `PackageIds`, `PatchPlan`,
  `DnfParse`, `DnfRoundTrip`): output chunks and who writes them, the resumed download, patch ids and
  what is reported of them.
- `Basics` and `Strings` hold what these share.

## Where the code departs from what it says

The model follows the code. Each departure is stated exactly, and where a property fails there is an
input that shows it and the condition under which it holds.

- Swap with no target drops the last binary: two failed renames and another Apply are enough
  (`UpdateSwap.SwapKeepsABinary`, `UpdateSwap.TwoAppliesLoseTheLastBinaryIff`). The pending record is written before the stale backup is dropped,
  so a crash between them can restore a binary two generations old (`UpdateSwap.StaleBackupIsRestored`).
- A crash between restore and denylist append, or a chmod that fails after the move, leaves the version
  undenied for good (`UpdateVerdict.AgentCutVerdict`, `UpdateVerdict.RollbackDeniesIff`); the guard has
  the same gap (`UpdateVerdict.GuardCutVerdict`). Because the state file's list comes first in the merge, a
  denial is lasting only while at most 32 distinct versions are listed.
- A health mark cut between the saved state and the removal of the guard's record leaves the guard counting
  launches of a build the agent calls healthy (`UpdateLife.MarkCutSettledIff`).
- A slot is not given back when a finished job is redelivered; three of those stop the agent from
  running anything (`JobRuns.ThreeRedeliveriesBlock`).
- The ring reports a gap for a write of exactly its capacity although nothing is lost
  (`ShellParts.Ring.Write`).
- After a catch-up the scheduler holds two items for the entry. Whenever one of them fires while the
  schedule still names the fire the other stands for, or has queued, that fire is queued twice
  (`SchedRuns.TurnDoublesIff`, `SchedRuns.PairDoublesIff`); it is then dispatched twice under one job id, and
  so is the one after it (`SchedRuns.TwinsDispatchTwice`). If the next fire comes before the catch-up and is
  dispatched, the recorded fire moves back (`SchedRuns.CatchUpMovesTheRecordBackIff`).
- A rebuild drops a fire whose time is exactly now, and postpones that of an "@every" entry unless it was
  computed in the same second (`SchedRuns.RebuildKeepsOwedFireIff`, `SchedRuns.RebuildKeepsEveryFireIff`), so
  such an entry never fires on a host synced more often than its delay (`SchedRuns.RebuildsStarveEvery`).
- A turn of the firing loop looks for the entry's next fire from now on: fires that came since the one it
  takes are neither run nor recorded (`SchedRuns.TurnPassesOverIff`).
- Documentation has InstallResult account for every requested id; two versions of one package break
  that for apt and pacman (`PatchPlan.EveryIdAccountedIff`, `PatchPlan.PacmanAccountsIff`). The early
  returns for a busy backend or a failed scan account only for the agent's own package.
- On Unix a certificate that does not parse is noticed only after the key has been replaced, and a
  certificate file torn by a crash ends renewal for good (`NetCertRuns.UnixAttemptIff`,
  `NetCertRuns.TornCertificateSticks`).
- On Windows a file error after the store install deletes the new certificate's key. So does the next
  successful renewal after one whose chain could not be installed: the sweep deletes the container of
  the leftover certificate, which by design has the same name. After a crash between store and files,
  disk and store disagree about which container is live. The next attempt that makes a key then costs the
  device its certificate, whether that attempt fails or succeeds, unless it gets as far as binding its own,
  that key is not discarded, and its sweep does not run or misses the container
  (`NetCertStore.DiskFailureStrandsUnless`, `NetCertStore.ChainFailureThenSuccessStrands`,
  `NetCertStore.CrashThenAttemptIff`).
- A dnf entry wrapped after a name with neither a dot nor a dash is dropped
  (`DnfRoundTrip.EntryReadIff`).

## Model

| member | source | states |
|---|---|---|
| `Denylist.MergeLists` | agent/internal/update/rollback.go:339-366 | The loops that merge the state file's list with the guard's file give each non-blank version once, trimmed, in order of first appearance, last 32 kept. |
| `Denylist.Append` | agent/internal/update/rollback.go:599-614 | Listing a version keeps the list within 32, keeps the new version on it, and invents nothing. |
| `Denylist.DeniedUntilOverrun` | agent/internal/update/rollback.go:339-366 | The exact life of a denial: a version is still refused if and only if at most 32 distinct versions, itself included, were first listed from its listing on. |
| `UpdateSwap.SwapCrashSafe` | agent/internal/update/swap.go:32-60 | In every disk state a Swap passes through, whichever of its steps fail, the target is the whole old binary, the whole new one, or absent with the old one saved; nothing but the two binaries and the staging file changes. |
| `UpdateSwap.SwapOutcome` | agent/internal/update/swap.go:32-60 | A Swap that succeeds has installed the artifact and saved the old binary; one that fails has left the old binary, except when its own undo failed too. |
| `UpdateSwap.SwapCleansUp` | agent/internal/update/swap.go:112-137 | What a Swap leaves of its staged copy: nothing, unless removing it failed or it could not be made executable. |
| `UpdateSwap.SwapKeepsABinary` | agent/internal/update/swap.go:47-58 | Swap never costs the host its last binary if and only if the target exists when it starts or it never gets to drop the saved one. |
| `UpdateSwap.ApplyKeepsABinary` | agent/internal/update/update.go:104-243 | The same of Apply, which also keeps it when it refuses. |
| `UpdateSwap.ApplyLosesTheTargetIff` | agent/internal/update/swap.go:53-58 | Apply ends with the target gone if and only if it passes its checks and copies, moves the old binary aside, and both later renames fail; the old binary is then the backup. |
| `UpdateSwap.TwoAppliesLoseTheLastBinaryIff` | agent/internal/update/swap.go:47-58 | Two Applies on a running host lose its last binary if and only if the first ends that way and the second passes its checks, copies and drops the backup. |
| `UpdateSwap.GuardRecovers` | agent/internal/svc/guard.go:86-136 | A guard run whose moves work, from any disk with a runnable binary or backup, ends with an executable target that is one of the two binaries that were there. |
| `UpdateSwap.GuardAfterCrashedSwap` | agent/internal/svc/guard.go:86-136 | Crash anywhere inside Swap, then run the guard once: the target is present and executable, and is the old binary, the new one or, only by the guard's own rollback, the saved one. |
| `UpdateSwap.OneLaunchIsNoLoop` | agent/internal/svc/guard.go:120-136 | With fewer than two earlier launches in the window, a guard run leaves the target alone, or restores one that is absent. |
| `UpdateSwap.GuardCountsLaunch` | agent/internal/svc/guard.go:120-136 | A watched launch is counted, and the backup restored exactly when that makes more than two in the window. |
| `UpdateSwap.ApplyKeepsBackups` | agent/internal/update/update.go:193-231 | Wherever Apply stops, the backup is gone, the one that was there, or the binary Apply started from. |
| `UpdateSwap.StaleBackupBesideARecordIff` | agent/internal/update/update.go:193-199 | Apply can stop with this update's record beside a backup that is not the binary it started from, if and only if it passes its checks and starts with such a backup. |
| `UpdateSwap.StaleBackupIsRestored` | agent/internal/update/update.go:194-199 | The cost of that: a crash right after the record and three launches make the guard restore the binary from two generations ago over one that never changed. |
| `UpdateRollback.LoopShowsAtTheEnd` | agent/internal/update/rollback.go:477-485 | On an ordered history ending by now, k launches lie in the window exactly when the k-th from the end does. |
| `UpdateRollback.KeepingSixteenDecidesAlike` | agent/internal/update/rollback.go:405-421 | Keeping the last sixteen launches never changes the rollback decision compared with the full history, for a clock that does not run backwards. |
| `UpdateRollback.RecordedIsLastSixteen` | agent/internal/update/rollback.go:405-421 | Recording launches one at a time, trimming each time, leaves the last sixteen of them. |
| `UpdateRollback.SixteenCanHideALoop` | agent/internal/update/rollback.go:405-421 | With a clock that runs backwards the trimmed list can hide a crash loop: a history in which no earlier launch triggers, the full list shows three in the window at the last, and the kept sixteen do not. |
| `UpdateRollback.GuardAndAgentCount` | agent/internal/svc/guard.go:128-130 | On the same launches the guard (whole seconds) never counts fewer than the agent (nanoseconds); the two agree if and only if the clock is on a whole second or no launch sits on the guard's edge of the window. |
| `UpdateRollback.AgentStartRollsBack` | agent/internal/update/rollback.go:516-550 | An agent start on a build in a crash loop, restore working, leaves exactly the rolled-back disk, whatever it and the guard had counted. |
| `UpdateRollback.GuardThenReconcileIsAgentRollback` | agent/internal/update/rollback.go:573-597 | A guard rollback reconciled at the next start leaves that same disk if and only if the version had not already been denied and pushed off the bounded list. |
| `UpdateRollback.RollbacksAgree` | agent/internal/update/rollback.go:494-597 | From one disk, the two ways out of a crash loop end on the same disk, byte for byte, under that same condition and no other. |
| `UpdateRollback.NoSecondRestore` | agent/internal/update/rollback.go:516-550 | After a rollback by either program, any number of guard runs and agent starts at any times leaves the disk unchanged. |
| `UpdateRollback.RollbackSettles` | agent/internal/update/rollback.go:554-564 | A finished rollback reaches such a disk, so nothing is restored again until the next update begins. |
| `UpdateVerdict.DeniedFromAppendOn` | agent/internal/update/rollback.go:527-543 | Which cuts of the agent's rollback, whatever fails in it, leave the version denied: those from the denylist append on, of one whose move and chmod work. |
| `UpdateRollback.ListedAfterAppend` | agent/internal/update/rollback.go:383-400 | A version appended to the state list and the file is on the merged list as long as it has room. |
| `UpdateVerdict.RestoredButNeverDenied` | agent/internal/update/rollback.go:527-543 | A crash right after the restore: through any later launches the previous binary stays and the version is never denied. |
| `UpdateVerdict.LaunchesLeaveVerdict` | agent/internal/update/rollback.go:516-597 | Once the backup is used up, or nothing is pending or on probation, no number of launches changes whether the version is denied. |
| `UpdateVerdict.AgentCutVerdict` | agent/internal/update/rollback.go:523-549 | So the verdict at each cut of the agent's rollback, from the move on, is for good. |
| `UpdateVerdict.RollbackDeniesIff` | agent/internal/update/rollback.go:527-543 | A rollback that runs to its end denies the version for good if and only if its move and its chmod work. |
| `UpdateVerdict.GuardCutVerdict` | agent/internal/svc/guard.go:86-107 | Which cuts of the guard's restore leave the version denied, whatever is launched afterwards: those from its append on, if the append works. |
| `UpdateLife.ApplyActsIff` | agent/internal/update/update.go:109-190 | Apply touches the disk if and only if the request is whole and for another version than the current one, the artifact passed its checks, and there is force or neither a denial nor an outstanding finalizer. |
| `UpdateLife.ApplyRecords` | agent/internal/update/rollback.go:218-237 | An update that succeeds puts the requested version on probation in both programs' records, with the replaced version as the previous one, the replaced binary as the backup, no launch counted and nothing denied. |
| `UpdateLife.FailedApplyForgets` | agent/internal/update/update.go:227-231 | One that fails after it began leaves no record, no probation, no mark and no launches; the denylist file stays. |
| `UpdateLife.GuardIsNeverAhead` | agent/internal/update/rollback.go:229-236 | At every disk state of an update or a finalizer's outcome the guard is shown the record as it was or one already saved. |
| `UpdateLife.NoRecordNoAction` | agent/internal/update/rollback.go:162-178 | A state file that is missing or does not parse means no update in flight: a start does nothing. |
| `UpdateLife.ClearCut` | agent/internal/update/rollback.go:203-210 | Clearing cut short: from its first step the agent is quiet, from its third the guard is, and no binary or denial changes. |
| `UpdateLife.LaunchesDecide` | agent/internal/update/rollback.go:516-550 | Launches of a build on probation, both programs running, clocks in order and nothing failing: it is rolled back from the third launch within the window on, by either clock, and until then only counted. |
| `UpdateLife.CrashLoopIff` | agent/internal/update/update.go:193-231 | From the request to the verdict: an update followed by any clean launches ends on the binary it replaced with the requested version denied, if some launch is the third within the window, and otherwise still runs the new binary, on probation, with nothing denied. |
| `UpdateLife.MarkedStays` | agent/internal/update/rollback.go:434-472 | After a mark of health on a build on probation no launch, at any time and whatever fails in it, changes anything. |
| `UpdateLife.MarkCutSettledIff` | agent/internal/update/rollback.go:457-471 | A mark cut short does so if and only if the guard's record is gone: until then the guard still watches, and before the state is saved so does the agent. |
| `UpdateRuns.HistoryGrows` | agent/internal/update/rollback.go:163-237 | Over any history of updates, guard runs, starts, health marks, finalizers, Clear and a corrupted state file, each cut at any file step, the denylist file only grows and goes on covering the state file's list. |
| `UpdateRuns.DeniedForGood` | agent/internal/update/update.go:128-137 | From a host whose denylist file covers its state list, as a new one's does: while at most 32 distinct versions are listed, a denied version stays denied through any such history, and Apply without Force refuses it, no disk state visited. |
| `UpdateRuns.StepKeepsSound` | agent/internal/update/update.go:104-243 | Every stopping point of every operation keeps each binary executable and known, and keeps one; an update must start from an existing target and a known artifact. |
| `UpdateRuns.AlwaysRecoverable` | agent/internal/svc/guard.go:86-136 | So at any point of any such history, one guard run whose moves work ends with an executable known binary. |
| `UpdateHost.CountInWindow` | agent/internal/update/rollback.go:477-485 | The counting loop gives the number of launches inside the window, future ones ignored. |
| `UpdateHost.Host.CopyFile` | agent/internal/update/swap.go:112-137 | Passes through the states of a copy cut at any byte, and reports whether it is whole. |
| `UpdateHost.Host.Swap` | agent/internal/update/swap.go:32-60 | Passes through exactly the disk states of Swap, step by step, under any faults. |
| `UpdateHost.Host.MoveIn` | agent/internal/update/swap.go:47-59 | The two renames and the undo, as the disk states they pass through. |
| `UpdateHost.Host.RestoreBackup` | agent/internal/update/swap.go:65-77 | Moves the backup over the target and makes it executable, or fails at either step. |
| `UpdateHost.Host.BeginUpdate` | agent/internal/update/rollback.go:218-237 | Passes through marker, starts, state and probation in that order; ApplyRecords says what they then hold. |
| `UpdateHost.Host.BeginFinalize` | agent/internal/update/rollback.go:242-255 | From here the guard counts no launch and no health mark is taken; binaries and denied versions are as they were. |
| `UpdateHost.Host.FinalizeOutcome` | agent/internal/update/rollback.go:261-285 | Health marks are taken again, the guard counts launches exactly if the finalizer succeeded, and its error is on record; binaries and denied versions are as they were. |
| `UpdateHost.Host.Clear` | agent/internal/update/rollback.go:203-210 | Afterwards neither program does anything at a launch of an executable agent; the denylist file and the binaries are as they were. |
| `UpdateHost.Host.MarkHealthy` | agent/internal/update/rollback.go:434-472 | Refuses, changing nothing, while a finalizer is outstanding; never touches the backup. |
| `UpdateHost.Host.IsDenied` | agent/internal/update/rollback.go:369-379 | The search finds a version exactly when it is on the merged list. |
| `UpdateHost.Host.Deny` | agent/internal/update/rollback.go:383-400 | Appends the trimmed version's lines to the denylist file, or nothing for a blank one. |
| `UpdateHost.Host.FinishRollbackWith` | agent/internal/update/rollback.go:554-564 | Afterwards the guard has nothing to count, its launches are forgotten, and a state with nothing pending is left alone by every later start. |
| `UpdateHost.Host.ReconcileGuardRollback` | agent/internal/update/rollback.go:573-597 | Acts exactly when the guard has rolled back, and then leaves the state a rollback here leaves. |
| `UpdateHost.Host.RecordStart` | agent/internal/update/rollback.go:405-421 | Adds one launch to a pending record, last sixteen kept. |
| `UpdateHost.Host.Decide` | agent/internal/update/rollback.go:495-507 | Decides on the larger of the two counts, and never again after a rollback. |
| `UpdateHost.Host.CheckAndRollback` | agent/internal/update/rollback.go:516-550 | Passes through exactly the disk states of an agent start, and reports a rollback if and only if the guard had not done it, the build is looping, and the backup was restored. |
| `UpdateHost.Host.RollBack` | agent/internal/update/rollback.go:527-549 | The restore, the append and the save, or on a failed restore the surrender, in their order. |
| `UpdateHost.Host.GuardRestoreBackup` | agent/internal/svc/guard.go:86-107 | The guard's restore, as the disk states it passes through under ignored errors. |
| `UpdateHost.Host.CountLaunch` | agent/internal/svc/guard.go:120-127 | A launch that can be written makes one more in the window, until sixteen are kept; only the list of launches changes. |
| `UpdateHost.Host.GuardCheck` | agent/internal/svc/guard.go:109-136 | Passes through exactly the disk states of a guard run. |
| `UpdateHost.Host.ApplyUpdate` | agent/internal/update/update.go:104-243 | Passes through exactly the disk states of Apply, and visits none when it refuses. |
| `JobRegistry.EvictKeepsNewest` | agent/internal/jobs/inflight.go:246-264 | Eviction leaves the newest 1024 finished ids, in order, and nothing else. |
| `JobRegistry.FinishKeepsNewest` | agent/internal/jobs/inflight.go:246-264 | Marking an id done keeps the finished set and its order list equal, each id once, newest 1024. |
| `JobRegistry.Module.StartJobs` | agent/internal/jobs/inflight.go:73-81 | Afterwards jobs are admitted again and a waiting caller is not turned away; running and finished jobs are as they were. |
| `JobRegistry.Module.CheckBeforeWait` | agent/internal/jobs/inflight.go:91-104 | Refuses only what the second section would, for the same reason; what it lets through the second could then refuse only as done already. |
| `JobRegistry.Module.CheckAndRegister` | agent/internal/jobs/inflight.go:112-133 | The second locked section: registers, or refuses, giving the slot back except when the id is done. |
| `JobRegistry.Module.Release` | agent/internal/jobs/inflight.go:136-145 | Its three effects: the id leaves the map, the slot and the wait group each go down by one. |
| `JobRegistry.Module.MarkDone` | agent/internal/jobs/inflight.go:246-264 | The loop form of marking done equals its specification. |
| `JobRegistry.Module.BeginDrain` | agent/internal/jobs/inflight.go:188-192 | From here every delivery is turned away at both checks; what was running still is. |
| `JobRuns.RunKeepsInv` | agent/internal/jobs/inflight.go:91-146 | Every interleaving of deliveries, slot waits, finishing jobs and shutdowns keeps slots, map, finished set, once-only and drain accounting. |
| `JobRuns.SlotsInEveryRun` | agent/internal/jobs/inflight.go:91-146 | Tokens held equal the callers and jobs holding one plus the errJobDone returns so far, never more than three; at most three jobs run; giving the slot back removes the last term. |
| `JobRuns.AtMostOnce` | agent/internal/jobs/consumer.go:134-185 | An id delivered only through handleJob starts a second time only if 1024 distinct other ids were marked done since; a started id is in flight, done, or evicted so. |
| `JobRuns.AckedOnlyIfStarted` | agent/internal/jobs/consumer.go:134-185 | A delivery is acknowledged, and a job reported interrupted, only if that job started in this process. |
| `JobRuns.DispositionIsExact` | agent/internal/jobs/consumer.go:139-185 | In every run a delivery is handed back if and only if it met a stopping agent at either check or waited on a context that was cancelled, and acknowledged if and only if its job was running at the first check or it came to the second with the agent not stopping. |
| `JobRuns.WaitersLeaveWhenCancelled` | agent/internal/jobs/inflight.go:188-214 | The current context is cancelled exactly from the end of the grace period on: no caller waiting on it can leave before, all can after. |
| `JobRuns.WaitsOnItsService` | agent/internal/jobs/inflight.go:91-110 | A caller waits on the context of the service it arrived in. |
| `JobRuns.StoppingOnlyShrinks` | agent/internal/jobs/inflight.go:188-216 | Once stopping is set, no step adds to the map until the registry is armed again. |
| `JobRuns.DrainLeavesNothingUnaccounted` | agent/internal/jobs/inflight.go:188-216 | When the drain has returned, every job still registered has been reported. |
| `JobRuns.ThreeLeaksBlockForever` | agent/internal/jobs/inflight.go:126-129 | As written, after three errJobDone returns no job ever starts again, whatever happens. |
| `JobRuns.RedeliveryLeaksASlot` | agent/internal/jobs/inflight.go:126-129 | One redelivery of a finished job costs one slot and changes nothing else. |
| `JobRuns.ThreeRedeliveriesBlock` | agent/internal/jobs/inflight.go:126-129 | A concrete run reaches that state: one job and three redeliveries of it. |
| `JobRuns.RefundKeepsSlotsFree` | agent/internal/jobs/inflight.go:121-125 | With the slot given back, a waiter can take one if and only if fewer than three are held. |
| `ShellParts.FlowController.RecordSent` | agent/internal/shell/flow.go:45-54 | Counts the bytes and is paused afterwards if and only if it was or has crossed the pause threshold. |
| `ShellParts.FlowController.RecordAck` | agent/internal/shell/flow.go:57-74 | Ignores non-positive acks, never goes below zero, and resumes if and only if it was paused and no more than the resume threshold is left. |
| `ShellParts.SentPausesIff` | agent/internal/shell/flow.go:45-54 | A session is paused after a send if and only if it was, or more than the pause threshold is now unacknowledged. |
| `ShellParts.AckResumesIff` | agent/internal/shell/flow.go:57-74 | An ack takes off what it names, down to zero, and a paused session stays paused if and only if more than the resume threshold is left; on resuming whoever waits is let through. |
| `ShellParts.Ring.Write` | agent/internal/shell/ring.go:21-37 | The ring keeps the longest suffix that fits; the drop flag is raised exactly when a byte is lost or a write of the whole capacity meets an empty ring. |
| `ShellParts.Ring.Drain` | agent/internal/shell/ring.go:41-47 | Returns everything held and the drop flag, and empties the ring. |
| `ShellParts.PublishFrames` | agent/internal/shell/session.go:193-206 | Frames are non-empty, within the frame size, and reassemble to the data, or to the prefix published before a failure. |
| `ShellSession.StepKeepsBounded` | agent/internal/shell/session.go:144-206 | Each locked section or published frame keeps everything that can still become unacknowledged within the bound. |
| `ShellSession.UnackedNeverExceeds` | agent/internal/shell/flow.go:45-90 | On every interleaving of pump, monitor, acks and link changes before close, unacked bytes never exceed pause threshold plus ring plus one frame, even when the pump wakes on a gate closed before a new pause. |
| `ShellSession.PausedMeansBehind` | agent/internal/shell/flow.go:57-74 | In every run a session is paused only while more than the resume threshold is unacknowledged. |
| `ShellSession.BlockedPumpWakes` | agent/internal/shell/flow.go:77-90 | So a blocked pump can go on whenever no more than that is unacknowledged, and an ack of everything always lets it; otherwise exactly when its gate is no longer the current one. |
| `ShellSession.NobodyElseStalls` | agent/internal/shell/session.go:144-171 | Nothing else stalls a session: whoever holds the output lock can go on, and so can a pump that is not blocked. |
| `ShellSession.EveryReadIsGated` | agent/internal/shell/session.go:144-158 | Since the pump last read it has consulted flow control. |
| `ShellSession.EveryFrameFits` | agent/internal/shell/session.go:192-206 | Every frame sent is not empty and at most 32 KiB. |
| `ShellSession.PublishShrinks` | agent/internal/shell/session.go:192-206 | Every publish leaves less to publish, and one that fails gives up the rest of its call and nothing else. |
| `ShellSession.TickFlushes` | agent/internal/shell/session.go:315-325 | With the link back, one tick gets the whole ring out, its gap announced first. |
| `ShellSession.DownIsWhatWasSeen` | agent/internal/shell/session.go:174-183 | A session counts as disconnected exactly from a look that found the link down to one that found it up. |
| `ShellSession.StepKeepsFaithful` | agent/internal/shell/session.go:161-206 | Each step, publishes succeeding, keeps the log an account of the output up to a position the bytes still owed continue from. |
| `ShellSession.ConsoleSeesTheOutput` | agent/internal/shell/session.go:161-206 | While publishes succeed, what is published is the terminal output in order, with pieces missing only at gap events; once nothing is owed the log reaches the end. |
| `ShellSession.NoGapMeansNothingLost` | agent/internal/shell/session.go:175-190 | A log without a gap event is the output itself up to where it has got. |
| `FireHeap.Heap.Push` | agent/internal/sched/heap.go:15-21 | Keeps the heap order and adds exactly the item. |
| `FireHeap.Heap.Pop` | agent/internal/sched/heap.go:15-27 | Keeps the heap order and removes an item due no later than any other. |
| `FireHeap.Heap.Init` | agent/internal/sched/sched.go:313-316 | Establishes the heap order over the same items. |
| `Scheduler.DecideMisfire` | agent/internal/sched/misfire.go:41-52 | Catches up exactly inside a positive grace; says nothing exactly when nothing was missed. |
| `Scheduler.LastMissed` | agent/internal/sched/misfire.go:56-68 | The walk returns the last of the fires it finds; on a schedule with fixed fires, unless cut short, no fire in the window is later. |
| `Scheduler.FindEntry` | agent/internal/sched/sched.go:361-370 | The search gives the first entry with the id, if it is enabled. |
| `Scheduler.ItemFor` | agent/internal/sched/sched.go:320-335 | The item is strictly in the future, due no earlier than its base. |
| `Scheduler.NoEntryGrows` | agent/internal/sched/sched.go:337-345 | Taking one item of an entry and putting back at most one of the same entry grows no entry's count. |
| `Scheduler.Scheduler.Handle` | agent/internal/sched/sched.go:193-202 | Records the fire, and dispatches it or skips it as too late. |
| `Scheduler.Scheduler.FireOne` | agent/internal/sched/sched.go:186-204 | One turn takes an item due first and refills with its entry's next fire. |
| `Scheduler.Scheduler.FireDue` | agent/internal/sched/sched.go:186-204 | Terminates though every turn may push; takes exactly the due items, each once, in due order; dispatches or skips each by slack and grace; leaves none due; grows no entry's count. |
| `Scheduler.Overdue` | agent/internal/sched/sched.go:289-296 | Rebuild carries exactly the queued items whose base has passed, with multiplicity. |
| `Scheduler.FreshItems` | agent/internal/sched/sched.go:301-311 | Rebuild computes one item per enabled entry with a next fire. |
| `Scheduler.Scheduler.Rebuild` | agent/internal/sched/sched.go:288-317 | The heap becomes those two bags together. |
| `Scheduler.Scheduler.CatchUpEntry` | agent/internal/sched/sched.go:245-284 | One entry at start-up is the step that RestartOwesExactly says the meaning of. |
| `Scheduler.Scheduler.CatchUp` | agent/internal/sched/sched.go:244-285 | The start-up walk over all entries. |
| `Scheduler.Scheduler.Sync` | agent/internal/sched/sched.go:124-141 | History is kept for entries that stay; a new one counts as fired now. |
| `SchedRuns.TurnKeepsInv` | agent/internal/sched/sched.go:186-204 | A firing turn keeps one item per entry, queued bases ahead of dispatched ones, and the recorded fire no earlier than any dispatched. |
| `SchedRuns.RebuildKeepsOneIff` | agent/internal/sched/sched.go:288-311 | Rebuild leaves one item per entry if and only if no overdue item belongs to an enabled entry with a next fire. |
| `SchedRuns.SyncKeepsInv` | agent/internal/sched/sched.go:108-148 | A sync with distinct ids keeps that invariant. |
| `SchedRuns.RestartKeepsInv` | agent/internal/sched/sched.go:244-285 | So does a restart: a fire caught up is later than any dispatched before it, across processes. |
| `SchedRuns.RestartOwesExactly` | agent/internal/sched/sched.go:244-285 | A restart, ids distinct: exactly the entries whose latest missed fire is within a positive grace are queued, each once, for that fire and after its jitter; a fire outside it is recorded as dealt with, a first sight as fired now, and every other record stays. |
| `SchedRuns.SyncKeepsWhatIsOwed` | agent/internal/sched/sched.go:126-139 | A sync changes nothing owed to an entry that stays; an entry it brings is owed nothing from before it; dropped entries lose their history. |
| `SchedRuns.TurnDispatchesIff` | agent/internal/sched/sched.go:186-204 | A turn dispatches its fire if and only if it comes within the slack of its due time or within a positive grace of its own, and records it either way. |
| `SchedRuns.DisabledNeverFires` | agent/internal/sched/sched.go:192-195 | An item of an entry since disabled is dropped: not run, not recorded, not queued again. |
| `SchedRuns.TurnPassesOverIff` | agent/internal/sched/sched.go:202-202 | On a schedule with fixed fires a turn passes over a fire if and only if the one after the one it takes has come too; otherwise that one is what it queues. |
| `SchedRuns.JobIdsNeverRepeat` | agent/internal/sched/sched.go:436-438 | Over any run of turns, syncs, rebuilds and restarts meeting that condition, with distinct ids, dispatched bases of an entry strictly increase, so no job id repeats. |
| `SchedRuns.RebuildKeepsOwedFireIff` | agent/internal/sched/sched.go:288-311 | On any schedule, a queued fire whose time has not passed survives a rebuild if and only if its time is not exactly now and the schedule, asked now, still names it. |
| `SchedRuns.RebuildKeepsFixedFireIff` | agent/internal/sched/sched.go:292-292 | On a schedule with fixed fires, as a five-field cron is, that is whenever its time is not exactly now. |
| `SchedRuns.RebuildKeepsEveryFireIff` | agent/internal/sched/sched.go:25-27 | A queued fire of an "@every" entry survives a rebuild if and only if it was computed in the same second. |
| `SchedRuns.RebuildsStarveEvery` | agent/internal/sched/sched.go:158-175 | Over any run of syncs of one document of "@every" entries, rebuilds and turns in which every step comes within the delay of the last rebuild, no turn is taken and nothing is dispatched. |
| `SchedRuns.TurnDoublesIff` | agent/internal/sched/sched.go:202-202 | On any schedule, beside an entry's next fire, firing another of its items queues that next fire again if and only if the schedule, asked then, still names it. |
| `SchedRuns.TurnDoublesFixedIff` | agent/internal/sched/sched.go:202-202 | On a schedule with fixed fires, if and only if its time is still to come. |
| `SchedRuns.TwinsDispatchTwice` | agent/internal/sched/sched.go:186-204 | A fire queued twice is dispatched twice under one job id, and the entry's next fire is queued twice again. |
| `SchedRuns.CatchUpDoublesTheNextFire` | agent/internal/sched/sched.go:151-174 | Whenever a catch-up fires, at or after its due time, while the schedule still names the entry's next fire, start-up handles that next fire twice: dispatched twice, unless the grace has run out by then. |
| `SchedRuns.TurnKeepsRecordIff` | agent/internal/sched/sched.go:382-390 | A turn keeps the recorded fire no earlier than any dispatched if and only if its entry is gone or no later base of it was dispatched before. |
| `SchedRuns.CatchUpMovesTheRecordBackIff` | agent/internal/sched/sched.go:382-384 | After a catch-up and the entry's next fire have fired in due order, each at or after its due time, the record has gone back before a fire already dispatched if and only if the next fire came first and was not too late. |
| `SchedRuns.PairDoublesIff` | agent/internal/sched/sched.go:202-202 | What the pair leaves queued, on any schedule and whenever they fire: the next fire twice if and only if the catch-up comes first and the schedule still names it; otherwise the fire the first of the pair queued, twice if and only if the schedule still names that when the second fires. |
| `InstallResult.Fail` | agent/internal/patch/patch.go:107-115 | Adds the id, and leaves an earlier reason as it was. |
| `InstallResult.AbandonedInstallResult` | agent/internal/patch/com.go:141-147 | Exactly the requested ids, all with the unknown outcome, none installed. |
| `InstallResult.Gate.Acquire` | agent/internal/patch/patch.go:176-176 | Takes the gate exactly when it was free. |
| `ComGate.StepKeepsInv` | agent/internal/patch/com.go:82-179 | Every step of every caller, its cancellation and the COM thread keeps calls consistent, the thread serving one, and the gate held exactly by one owner or none. |
| `ComGate.OneInstallAtATime` | agent/internal/patch/com.go:159-179 | In every reachable state the gate is held exactly while an install is admitted and unfinished, at most one is, and a running one holds it even when abandoned. |
| `ComGate.EveryAcquireReleasedOnce` | agent/internal/patch/com.go:159-179 | Each call takes the gate at most once and releases it as often, once its caller is done and its closure not running. |
| `ComGate.ReleaseIsByTheHolder` | agent/internal/patch/com.go:163-173 | Any step that frees the gate is made by the call that holds it. |
| `ComGate.BusyOnlyIfAnotherIsUnfinished` | agent/internal/patch/com.go:160-162 | A caller is told busy only while another install is admitted and unfinished. |
| `ComGate.AnswersAreSafe` | agent/internal/patch/com.go:82-115 | A completed answer is the result of what the closure did; an abandoned one depends on the requested ids alone; one that never started was cancelled or had no apartment, and did nothing. |
| `ComGate.ResultIsTheWorkDone` | agent/internal/patch/com.go:158-178 | In every run the result of a call, on the thread, on its way back and in the answer, is what its own closure last did, or empty. |
| `ComGate.CancelledInTimeNeverRuns` | agent/internal/patch/com.go:82-115 | A call cancelled, or without an apartment, when it comes to the thread never gets onto it. |
| `ComGate.CancelledCallerCanLeave` | agent/internal/patch/com.go:82-115 | A cancelled caller can always leave by a step of its own, whatever the thread is doing. |
| `ComGate.HeldGateCanMove` | agent/internal/patch/com.go:82-115 | Whenever the gate is held, its holder or the thread it waits for has a step to make. |
| `NetCert.NamesDiffer` | agent/internal/netcert/key.go:81-89 | With a digest that does not collide, two renewals share a container name if and only if device and predecessor serial agree. |
| `NetCert.Device.SweepSuperseded` | agent/internal/netcert/certstore_windows.go:256-293 | The sweep has exactly the effects specified, certificate before container. |
| `NetCert.Device.DeleteSuperseded` | agent/internal/netcert/certstore_windows.go:279-292 | One superseded certificate: itself, then its container if this program named it. |
| `NetCert.Device.InstallCertificate` | agent/internal/netcert/certstore_windows.go:82-111 | Add, bind, chain, sweep, stopping at the first error but never on a sweep error. |
| `NetCert.Device.InstallAndSave` | agent/internal/netcert/key_windows.go:31-61 | Store first, then the files, then the old key file. |
| `NetCert.Device.Ensure` | agent/internal/netcert/request.go:109-180 | The log of effects and the answer are exactly those specified, on either platform. |
| `NetCertRuns.UnixFailuresAreFree` | agent/internal/netcert/request.go:143-169 | On Unix, over any run of attempts that fail at key, CSR or request, the files do not change. |
| `NetCertRuns.SaveCutIff` | agent/internal/netcert/netcert.go:181-192 | A save cut anywhere leaves key, certificate and chain matched if and only if it is cut before its first step or after its last. |
| `NetCertRuns.FirstIssuanceCut` | agent/internal/netcert/netcert.go:185-188 | On a first issuance, at every cut a certificate is on disk only with its key and its chain. |
| `NetCertRuns.UnixAttemptIff` | agent/internal/netcert/netcert.go:181-269 | Whatever an attempt meets, the set is matched afterwards if and only if it never got to write or wrote everything; a certificate that does not parse is found out after the key is replaced. |
| `NetCertRuns.TornCertificateSticks` | agent/internal/netcert/request.go:115-118 | A certificate file that does not parse makes every later attempt fail before it does anything, on either platform. |
| `NetCertRuns.FailureTouchesOneContainer` | agent/internal/netcert/request.go:144-170 | On Windows, an attempt that fails before the store, cut anywhere, has touched only its own container. |
| `NetCertRuns.FailuresLeaveOneContainer` | agent/internal/netcert/key.go:81-89 | Over any run of such attempts, discards failing or not, every usable certificate stays usable and at most one container is left over. |
| `NetCertRuns.FailedAttemptSparesIff` | agent/internal/netcert/request.go:143-170 | A failed attempt spares a usable certificate if and only if it renews nothing, makes no key, or names another container than that certificate's. |
| `NetCertRuns.FailedKeyIs` | agent/internal/netcert/request.go:143-169 | What a failed attempt does with its key on Windows: a usable one is discarded if the discard works, one left half made stays. |
| `NetCertStore.SweepIs` | agent/internal/netcert/certstore_windows.go:256-293 | Exactly which certificates and containers a sweep leaves. |
| `NetCertStore.CompletedIsUsableIff` | agent/internal/netcert/certstore_windows.go:279-292 | A renewal that completes leaves its certificate usable if and only if no other certificate in the store is bound to its container, or that container could not be deleted. |
| `NetCertStore.DiskFailureStrandsUnless` | agent/internal/netcert/key_windows.go:36-43 | A file error after the store install leaves the device a usable certificate if and only if the discard failed too or the sweep could delete neither an old usable certificate nor its container. |
| `NetCertStore.CompletedIsSettled` | agent/internal/netcert/request.go:171-179 | A completed renewal with a fresh serial leaves disk and store agreeing again. |
| `NetCertStore.CutStillWorks` | agent/internal/netcert/certstore_windows.go:94-109 | At every cut of it some certificate is usable: the old one up to the binding, the new one from it on. |
| `NetCertStore.NeverOffTheNetwork` | agent/internal/netcert/request.go:109-180 | Over any run of attempts that fail before the store or complete, with a CA that never repeats a serial and a digest that does not collide, disk and store agree after each and a device with a certificate has a usable one at every cut. |
| `NetCertStore.UnseenIsFresh` | agent/internal/netcert/key.go:81-89 | A serial not seen before names no container there is. |
| `NetCertStore.ChainFailureLeaves` | agent/internal/netcert/certstore_windows.go:94-99 | A chain that cannot be installed leaves its certificate in the store bound to the renewal's container, deleted if the discard worked. |
| `NetCertStore.ChainFailureThenSuccessStrands` | agent/internal/netcert/certstore_windows.go:279-292 | The next renewal that completes then deletes its own container: one certificate, nothing to use it with. |
| `NetCertStore.CrashThenFailureIff` | agent/internal/netcert/key_windows.go:36-43 | After a crash between the store install and the files, an attempt that fails before the store leaves a usable certificate if and only if it renews nothing or makes no key. |
| `NetCertStore.CrashThenAttemptIff` | agent/internal/netcert/request.go:109-180 | After that crash, any attempt with a key of its own leaves a usable certificate if and only if it renews nothing, makes no key, or binds its certificate, is saved or fails to discard, and is stopped by its chain or has a sweep that misses the shared container. No container has the empty name. |
| `NetCertStore.CrashThenSuccessIff` | agent/internal/netcert/certstore_windows.go:279-292 | And one that succeeds leaves a usable certificate if and only if its sweep cannot delete the container the two certificates share. |
| `NetCertStore.NothingDangles` | agent/internal/netcert/certstore_windows.go:281-291 | At no cut of a renewal that completes, from a store in order, does a certificate point at a key that is gone. |
| `NetCertStore.OnDiskOnlyIfUsable` | agent/internal/netcert/key_windows.go:32-43 | The new certificate is on disk only once it is in the store and usable. |
| `NetCertStore.AnswerIsTrue` | agent/internal/netcert/request.go:115-180 | What is returned is what the disk holds: the new certificate, with its key in the matching file or out of it, or the old one; one kept without renewal is valid with more than half its life ahead. |
| `NetCertStore.AnswerIff` | agent/internal/netcert/netcert.go:392-409 | When each answer is given: a certificate is kept if and only if it is valid with more than half its life ahead; otherwise a new one is the answer exactly when key, request and save all work, and a failed request is told apart. |
| `ChunkSink.SinkObject.SendChunk` | agent/internal/scripts/chunk.go:100-110 | Uses up one number whether or not the emit succeeds. |
| `ChunkSink.SinkObject.WriteOut` | agent/internal/scripts/chunk.go:69-90 | The framing loop equals its specification under any failing emits. |
| `ChunkSink.SinkObject.Eof` | agent/internal/scripts/chunk.go:94-98 | Sends one empty marker. |
| `ChunkSink.SinkObject.Stop` | agent/internal/scripts/chunk.go:116-120 | From here no write changes anything, and the end-of-stream markers still go out. |
| `ChunkSink.AlwaysFramed` | agent/internal/scripts/chunk.go:69-110 | Whatever is written and whichever emits fail, numbers strictly increase, data chunks are non-empty and within the limit, markers are empty. |
| `ChunkSink.OutputReassembles` | agent/internal/scripts/chunk.go:69-120 | Over any interleaving of writes, markers and a stop, emits succeeding: numbers are 1, 2, 3 and so on, the chunks reassemble to the first cap bytes written before the stop, stream by stream in order, and truncated is set exactly when there were more. |
| `ChunkSink.SendAllIsAPrefix` | agent/internal/scripts/chunk.go:79-92 | Whichever emits fail, what gets out of one write is a prefix of it, all of it unless an emit failed, and only that counts towards the cap. |
| `ChunkSink.NoDataAfterTheEnd` | agent/internal/scripts/chunk.go:94-120 | If no write follows a close except after a stop, no data chunk follows a marker, whichever emits fail. |
| `ScriptRunner.StepKeepsInv` | agent/internal/scripts/runner.go:313-334 | Every read, write, exit, timeout, stop and close keeps that order of calls, and the closes the runner has made. |
| `ScriptRunner.NoDataAfterTheEndInAnyRun` | agent/internal/scripts/runner.go:313-334 | However the two pumps, the child's exit, the drain timer and the closes interleave, and whatever a blocked pump still writes, no data chunk follows an end-of-stream marker. |
| `ScriptRunner.ReadIsToldOrHeld` | agent/internal/scripts/runner.go:379-393 | In every run the bytes read of a stream are those the sink was told, in order, and then what its pump still holds; a pump stops exactly when a read has ended its stream. |
| `ScriptRunner.DrainedJobToldEverything` | agent/internal/scripts/runner.go:313-334 | A job not cut off by the timer has told the sink everything that was read. |
| `ScriptRunner.FinishedJobIsWhole` | agent/internal/scripts/runner.go:165-184 | When the job is through, emits succeeding: the first bytes up to the cap, numbered from 1, then one marker for stdout and one for stderr, and nothing after them. |
| `Download.Downloader.Download` | agent/internal/update/download.go:95-144 | The steps up to the copy equal the specification, error by error. |
| `Download.Downloader.Copy` | agent/internal/update/download.go:138-184 | The copy, its checks and the rename equal the specification. |
| `Download.AttemptKeepsSound` | agent/internal/update/download.go:95-184 | Any attempt, cut at any byte, leaves the part file a prefix of the body and the destination absent or the whole body within the cap. |
| `Download.PartIsAPrefix` | agent/internal/update/download.go:95-184 | So does any run of attempts, against a server that obeys or ignores Range (sections 14.2, 15.3.7 and 15.5.17 of RFC 9110). |
| `Download.OutcomeIsTrue` | agent/internal/update/download.go:164-184 | Success means the whole body is in place and its size reported; too large and empty are said only of bodies that are, and the part is gone. |
| `Download.OutcomeIff` | agent/internal/update/download.go:95-184 | Exactly which outcome is reported when. |
| `Download.PartIsKept` | agent/internal/update/download.go:118-150 | A part within the cap is only ever added to until it is the destination or found too large, unless the server starts over or says there is no more. |
| `Download.StaleIsDropped` | agent/internal/update/download.go:106-117 | A part over the cap does not outlive an attempt. |
| `Download.SmoothAttemptDelivers` | agent/internal/update/download.go:107-137 | From any state earlier attempts leave, an attempt without faults delivers if and only if the body is non-empty and within the cap, unless the part already is the body: then it is thrown away. |
| `Download.TwoSmoothAttemptsDeliver` | agent/internal/update/download.go:131-134 | Two such attempts always deliver. |
| `PackageIds.SplitId` | agent/internal/patch/apt_parse.go:157-163 | The two halves around the first "=", or nothing exactly when one is missing. |
| `PackageIds.CheckPkgName` | agent/internal/patch/ids.go:38-62 | The loop accepts exactly names that start with a letter or digit and hold only allowed characters. |
| `PackageIds.CheckPkgVersion` | agent/internal/patch/ids.go:67-87 | Likewise for versions. |
| `PackageIds.SplitNameArch` | agent/internal/patch/dnf_parse.go:66-76 | Takes off a known architecture, or nothing. |
| `PackageIds.SelfIsByName` | agent/internal/patch/self.go:40-61 | For an id that passes the checks, being the agent's own package comes down to the name before "=", less an architecture. |
| `PackageIds.SelfInAnyDress` | agent/internal/patch/self.go:40-61 | The same in any case and with any space around the id, for any name and version without space. |
| `PackageIds.CheckedIsOneArgument` | agent/internal/patch/ids.go:38-88 | A name or version that passes its check starts with no dash and holds no space. |
| `PatchPlan.DedupeIds` | agent/internal/patch/patch.go:190-201 | Each non-empty id once, in order of first appearance. |
| `PatchPlan.PrepareInstall` | agent/internal/patch/self.go:65-104 | Fails every id when the deadline is too close, otherwise exactly the agent's own. |
| `PatchPlan.AptInstallPlan` | agent/internal/patch/ids.go:102-129 | The planning loop equals its specification. |
| `PatchPlan.AptPlanMeans` | agent/internal/patch/ids.go:102-129 | What the plan holds: failures are exactly the rejected ids; each accepted name has an accepted id; specs are accepted ids. |
| `PatchPlan.VerdictIff` | agent/internal/patch/ids.go:104-123 | Every good name and version makes an id that is taken apart into them again, and is accepted if and only if it is offered. |
| `PatchPlan.BadIdIsRejected` | agent/internal/patch/ids.go:104-116 | An id that is not a good name and version is rejected as that. |
| `PatchPlan.AptPlanHandsOn` | agent/internal/patch/ids.go:102-129 | apt is handed exactly the accepted ids, in the order asked for; every other fails with the reason it was turned away for. |
| `PatchPlan.LastOfNameIsPlanned` | agent/internal/patch/ids.go:125-127 | Of the accepted ids of one name the last is the one kept. |
| `PatchPlan.AttributeAptResult` | agent/internal/patch/apt_linux.go:148-162 | Over the map in any order, each name once: a planned id is installed exactly when dpkg has its version, and failed exactly when not. |
| `PatchPlan.AptInstall` | agent/internal/patch/apt_linux.go:87-140 | The whole install: when each early return is taken and what it leaves, and that past the scan the result is prepare, plan and attribution. |
| `PatchPlan.Fate` | agent/internal/patch/apt_linux.go:148-162 | What is reported of one requested id, in every case. |
| `PatchPlan.WhyItFailed` | agent/internal/patch/apt_linux.go:148-162 | Why a requested id failed, in every case: the agent's own, turned away, or what dpkg has instead. |
| `PatchPlan.EveryIdAccountedIff` | agent/internal/patch/patch.go:92-98 | Every requested id is in exactly one of installed and failed if and only if no two ids taken to apt name the same package; installed repeats nothing. |
| `PatchPlan.OneVersionPerNameIsEnough` | agent/internal/patch/ids.go:91-97 | A scan that offers one version per package meets that condition. |
| `PatchPlan.InstalledIsTrue` | agent/internal/patch/apt_linux.go:148-162 | An id reported installed was requested, is offered, does not name the agent, and dpkg has exactly its version. |
| `PatchPlan.PacmanInstallPlan` | agent/internal/patch/ids.go:174-202 | The pacman planning loop equals its specification. |
| `PatchPlan.FirstOfNameIsPlanned` | agent/internal/patch/ids.go:190-198 | Of the accepted ids of one name the first is the one pacman is handed. |
| `PatchPlan.PacmanAccountsIff` | agent/internal/patch/ids.go:195-197 | Every id is failed or handed on under its name if and only if no two accepted ids name the same package. |
| `DnfParse.IsSkipLine` | agent/internal/patch/dnf_parse.go:135-142 | The loop finds a banner prefix exactly when there is one. |
| `DnfParse.ParseCheckUpdate` | agent/internal/patch/dnf_parse.go:96-133 | The parsing loop equals its specification. |
| `DnfRoundTrip.SplitOfToken` | agent/internal/patch/dnf_parse.go:66-76 | Taking the architecture off a well-formed first column gives back name and architecture. |
| `DnfRoundTrip.SpecOfIdIsNvra` | agent/internal/patch/dnf_parse.go:27-52 | The id of a well-formed entry turns back into its name, version, release and architecture, from which the architecture can be taken off again. |
| `DnfRoundTrip.RoundTrip` | agent/internal/patch/dnf_parse.go:96-133 | Printing any page of entries that can be read back one by one, each on one line or wrapped after its name, with any blanks between columns, banners, blank lines and stray words anywhere between them, and perhaps the obsoleting section with anything in it, and parsing gives exactly the entries before that section. |
| `DnfRoundTrip.InterruptedIsDropped` | agent/internal/patch/dnf_parse.go:101-112 | Noise between a wrapped name and its columns costs the entry. |
| `DnfRoundTrip.EntryReadIff` | agent/internal/patch/dnf_parse.go:96-133 | Exactly which printed entries are read back: on one line, if the line does not pass for a banner; wrapped, if neither line does and the name column has a dot or a dash. |
| `DnfRoundTrip.UsualIsPrintable` | agent/internal/patch/dnf_parse.go:80-88 | No line of an entry whose version starts with a digit and whose name has no colon passes for a banner. |

## Left out

- Inputs rather than models: clocks, network replies, process exits, signal delivery, file errors and
  the interleaving itself are parameters of the steps they affect.
- Update: the finalizer process and the health watcher's timers (their effects on the disk are steps),
  signature and checksum verification, read errors other than a missing or corrupt file, several target
  paths, Windows file locking, removing old staging files, and torn writes of the files saved by rename.
- The append to the denylist file is one step. That file is not saved by rename, and an append cut short
  would join what it wrote to the next version appended.
- The fields FinalizedAt, HealthyAt, FinalizerPID and the text of markers and errors.
- Jobs: cancelling a single job, running-job listing, progress messages, deliveries terminated because they
  cannot be decoded or have an unusable id, and the job kinds themselves.
- Shell: everything after a session is closed, terminal input and resizing, and idle timeouts.
- Scheduler.Scheduler.Sync: takes a document whose entries all parse, because rejecting the others is a
  filter before the same steps; the identifier check and the state file are not modelled.
- Scheduler.Scheduler.CatchUp: an entry whose cron no longer parses is one that never fires, because
  such entries are dropped when a document is accepted.
- SchedRuns.CatchUpMovesTheRecordBackIff: start-up of a schedule with one entry,
  because other entries touch neither this one's items nor its record.
- SchedRuns.CatchUpDoublesTheNextFire: the same.
- SchedRuns.PairDoublesIff: the same.
- Scheduler: a sync that lands inside a turn of the firing loop; only between turns.
- InstallResult.AbandonedInstallResult: reboot_required and the texts of other errors are not modelled.
- PatchPlan.AptInstall: apt's lock waiting, dpkg output parsing and progress; reasons for failure are
  told apart by kind and not by their full text.
- PatchPlan.PacmanInstallPlan: what pacman reports afterwards.
- The dnf plan, whose check on each id is apt's with upper-case names, and advisories.
- NetCert.Device.Ensure: PhaseAt, presence checks, the CSR's contents and directory permissions; half of
  a lifetime is integer division, where the code rounds a float.
- NetCert: a certificate added to the Windows store by anyone else with this device's subject.
- Download: a transfer cut short is always noticed, as it is when the response carries a length or is
  chunked; a body that only ends with its connection looks whole when cut, until its checksum is compared.
- Download: symbolic links and special files at the part path, and a body that changes between attempts.
- PackageIds.SelfIsByName: case folding is ASCII.
- ScriptRunner: the child process, what kills it, staging of the script, and the job's result.
- ChunkSink: the base64 envelope and the identifiers each chunk carries.
- The server, web console, installers, inventory, telemetry, heartbeat, posture, notifications,
  supplicant configuration, logging and audit events.
