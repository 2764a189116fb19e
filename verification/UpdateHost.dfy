/**
 The update code as it runs: methods that take one file step at a time on a host's disk. Each
 method is proved to pass through exactly the disk states the corresponding operation of
 UpdateOps lists, so every crash point of the running code is one of those.
 */
module UpdateHost {
  import opened Basics
  import opened Strings
  import opened Denylist
  import opened UpdateDisk
  import opened UpdateOps

  /** countStarts: the loop over the recorded launches. */
  method CountInWindow(starts: seq<int>, now: int, window: int) returns (n: nat)
    ensures n == CountStarts(starts, now, window)
  {
    n := 0;
    for i := 0 to |starts|
      invariant n == CountStarts(starts[..i], now, window)
    {
      assert starts[..i + 1][..i] == starts[..i];
      if starts[i] <= now && now - starts[i] <= window {
        n := n + 1;
      }
    }
    assert starts[..|starts|] == starts;
  }

  predicate SameBinaries(d: Disk, e: Disk) {
    e.target == d.target && e.backup == d.backup && e.staging == d.staging
  }

  class Host {
    var disk: Disk
    /** Every disk state passed through so far; a crash leaves the last one reached. */
    ghost var visited: seq<Disk>

    constructor (d: Disk)
      ensures disk == d && visited == []
    {
      disk := d;
      visited := [];
    }

    /** One file step. */
    method Step(next: Disk)
      modifies this
      ensures disk == next && visited == old(visited) + [next]
    {
      disk := next;
      visited := visited + [next];
    }

    /** copyFile to the staging name, one byte at a time. */
    method CopyFile(bytes: Bytes, outcome: CopyOutcome) returns (ok: bool)
      modifies this
      ensures var r := CopyRun(old(disk), bytes, outcome);
              ok == r.ok && visited == old(visited) + r.trace && disk == After(old(disk), r.trace)
    {
      if outcome.OpenFailed? {
        return false;
      }
      ghost var start := disk;
      var stopAt := if outcome.CutAt? && outcome.k <= |bytes| then outcome.k else |bytes|;
      Step(disk.(staging := Some(Exe([], false))));
      var k := 0;
      while k < stopAt
        invariant 0 <= k <= stopAt <= |bytes|
        invariant disk == start.(staging := Some(Exe(bytes[..k], false)))
        invariant visited == old(visited) + CopySteps(start, bytes, k)
      {
        k := k + 1;
        Step(disk.(staging := Some(Exe(bytes[..k], false))));
        assert CopySteps(start, bytes, k) == CopySteps(start, bytes, k - 1) + [disk];
      }
      assert bytes[..|bytes|] == bytes;
      match outcome {
        case CutAt(_, removeFails) =>
          if !removeFails {
            Step(disk.(staging := None));
          }
          return false;
        case ChmodFailed =>
          return false;
        case Copied =>
          Step(disk.(staging := Some(Exe(bytes, true))));
          return true;
      }
    }

    method Swap(bytes: Bytes, f: SwapFaults) returns (ok: bool)
      modifies this
      ensures var r := SwapRun(old(disk), bytes, f);
              ok == r.ok && visited == old(visited) + r.trace && disk == After(old(disk), r.trace)
    {
      hide CopyRun, RenameRun;
      ghost var copied := CopyRun(disk, bytes, f.copy).trace;
      ok := CopyFile(bytes, f.copy);
      if !ok {
        return;
      }
      ghost var dropped := if f.removeOldFails then [] else [disk.(backup := None)];
      if !f.removeOldFails {
        Step(disk.(backup := None));
      }
      assert visited == old(visited) + (copied + dropped);
      ok := MoveIn(f);
    }

    /** The two renames of Swap, with the undo. */
    method MoveIn(f: SwapFaults) returns (ok: bool)
      modifies this
      ensures var r := RenameRun(old(disk), f);
              ok == r.ok && visited == old(visited) + r.trace && disk == After(old(disk), r.trace)
    {
      ok := false;
      if disk.target.None? || f.awayFails {
        RemoveStaging(f.removeTmpFails);
        return;
      }
      Step(disk.(target := None, backup := disk.target));
      if disk.staging.None? || f.inFails {
        if !f.backFails {
          Step(disk.(target := disk.backup, backup := None));
        }
        RemoveStaging(f.removeTmpFails);
        return;
      }
      Step(disk.(target := disk.staging, staging := None));
      ok := true;
    }

    method RemoveStaging(fails: bool)
      modifies this
      ensures visited == old(visited) + DropStaging(old(disk), fails)
      ensures disk == After(old(disk), DropStaging(old(disk), fails))
    {
      if !fails {
        Step(disk.(staging := None));
      }
    }

    method RestoreBackup(f: RestoreFaults) returns (ok: bool)
      modifies this
      ensures var r := RestoreRun(old(disk), f);
              ok == r.ok && visited == old(visited) + r.trace && disk == After(old(disk), r.trace)
    {
      if disk.backup.None? || f.moveFails {
        return false;
      }
      Step(disk.(target := disk.backup, backup := None));
      if f.chmodFails {
        return false;
      }
      Step(disk.(target := Some(disk.target.value.(runnable := true))));
      return true;
    }

    method SaveState(st: State)
      modifies this
      ensures disk == old(disk).(state := Saved(st)) && visited == old(visited) + [disk]
    {
      Step(disk.(state := Saved(st)));
    }

    method RemoveGuardFiles()
      modifies this
      ensures visited == old(visited) + DropGuardFiles(old(disk))
      ensures disk == After(old(disk), DropGuardFiles(old(disk)))
    {
      Step(disk.(probation := None));
      Step(disk.(starts := []));
    }

    method BeginUpdate(i: ApplyInput)
      modifies this
      ensures visited == old(visited) + BeginApply(old(disk), i)
      ensures disk == After(old(disk), BeginApply(old(disk), i))
    {
      var prior := disk.Load();
      Step(if i.markerStays then disk else disk.(marker := false));
      Step(if i.startsStay then disk else disk.(starts := []));
      var st := NO_STATE.(pending := i.req.version, previous := i.req.current, target := i.targetPath,
                          backup := BackupPath(i.targetPath), swappedAt := i.now, denied := prior.denied);
      SaveState(st);
      Step(disk.(probation := Some(ProbationOf(st))));
    }

    /** Saves a state and publishes the guard's view of it. */
    method SaveAndPublishState(st: State)
      modifies this
      ensures visited == old(visited) + SaveAndPublish(old(disk), st)
      ensures disk == After(old(disk), SaveAndPublish(old(disk), st))
    {
      SaveState(st);
      Step(disk.(probation := Some(ProbationOf(st))));
    }

    /** From here until the finalizer reports, the guard counts no launch and no health mark is taken. */
    method BeginFinalize()
      modifies this
      ensures forall t: nat :: !GuardWatches(disk, t)
      ensures forall unproven: bool :: MarkHealthyRun(disk, unproven) == Run([], false)
      ensures SameBinaries(old(disk), disk) && disk.DeniedList() == old(disk).DeniedList()
      ensures disk.Load().finalizeErr == ""
      ensures visited == old(visited) + BeginFinalizeTrace(old(disk)) &&
              disk == After(old(disk), BeginFinalizeTrace(old(disk)))
    {
      SaveAndPublishState(disk.Load().(finalizing := true, finalizeErr := ""));
    }

    /** What the finalizer reports; a failure is a non-empty text. Health marks are taken again; the guard
        counts launches exactly if the finalizer succeeded, because only then has the binary changed. */
    method FinalizeOutcome(failure: string)
      modifies this
      ensures forall t: nat :: GuardWatches(disk, t) <==> failure == "" && t != 0
      ensures forall unproven: bool :: MarkHealthyRun(disk, unproven).ok
      ensures SameBinaries(old(disk), disk) && disk.DeniedList() == old(disk).DeniedList()
      ensures disk.Load().finalizeErr == failure
      ensures visited == old(visited) + FinalizeOutcomeTrace(old(disk), failure)
      ensures disk == After(old(disk), FinalizeOutcomeTrace(old(disk), failure))
    {
      var st := disk.Load().(finalizing := false, finalizeErr := failure);
      if failure == "" {
        SaveAndPublishState(st);
      } else {
        SaveState(st);
        Step(disk.(probation := None));
      }
    }

    /** Afterwards neither program does anything at a launch of an executable agent; what is denied in the
        file stays so. */
    method Clear()
      modifies this
      ensures forall now: int, later: int, f: RestoreFaults :: AgentStart(disk, now, later, f) == []
      ensures disk.Launchable() ==> forall t: nat, f: GuardRunFaults :: GuardRun(disk, t, f) == []
      ensures SameBinaries(old(disk), disk) && disk.denied == old(disk).denied
      ensures visited == old(visited) + ClearTrace(old(disk)) && disk == After(old(disk), ClearTrace(old(disk)))
    {
      Step(disk.(state := Missing));
      Step(disk.(marker := false));
      RemoveGuardFiles();
    }

    method MarkHealthy(unproven: bool) returns (ok: bool)
      modifies this
      ensures var r := MarkHealthyRun(old(disk), unproven);
              ok == r.ok && visited == old(visited) + r.trace && disk == After(old(disk), r.trace)
      ensures old(disk).Load().finalizing ==> !ok && disk == old(disk)
      ensures disk.backup == old(disk).backup
    {
      var st := disk.Load();
      if st.finalizing {
        return false;
      }
      Step(disk.(marker := true));
      if st.Pending() {
        SaveState(st.(healthy := true, unproven := unproven, starts := []));
        RemoveGuardFiles();
      }
      return true;
    }

    method IsDenied(version: string) returns (denied: bool)
      ensures denied == disk.IsDenied(version)
    {
      if version == "" {
        return false;
      }
      var list := MergeLists(disk.Load().denied, disk.denied);
      for i := 0 to |list|
        invariant version !in list[..i]
      {
        if list[i] == version {
          return true;
        }
      }
      assert list[..|list|] == list;
      return false;
    }

    method Deny(version: string)
      modifies this
      ensures disk == old(disk).(denied := disk.denied)
      ensures visited == old(visited) + DenyTrace(old(disk), version)
      ensures disk == After(old(disk), DenyTrace(old(disk), version))
    {
      var v := Trim(version);
      if v != "" {
        Step(disk.(denied := disk.denied + Lines(v)));
      }
    }

    /** Afterwards the guard has nothing to count and its launches are forgotten, and a state with nothing
        pending is left alone by every later start. */
    method FinishRollbackWith(st: State)
      modifies this
      ensures disk.Load() == st && ExternalStarts(disk) == [] && forall t: nat :: !GuardWatches(disk, t)
      ensures !st.Pending() ==> forall now: int, later: int, f: RestoreFaults :: AgentStart(disk, now, later, f) == []
      ensures SameBinaries(old(disk), disk) && disk.denied == old(disk).denied
      ensures visited == old(visited) + FinishRollback(old(disk), st)
      ensures disk == After(old(disk), FinishRollback(old(disk), st))
    {
      SaveState(st);
      RemoveGuardFiles();
    }

    /** reconcileGuardRollback: turn what the guard did into the state a rollback here leaves. */
    method ReconcileGuardRollback() returns (done: bool)
      modifies this
      ensures done == GuardRolledBack(old(disk))
      ensures done ==> visited == old(visited) + FinishRollback(old(disk), RolledBack(old(disk).Load()))
                       && disk == After(old(disk), FinishRollback(old(disk), RolledBack(old(disk).Load())))
      ensures !done ==> visited == old(visited) && disk == old(disk)
    {
      hide AgentStart, GuardWatches, ExternalStarts;
      var st := disk.Load();
      if !st.Pending() || st.rolledBack || disk.probation.Some? {
        return false;
      }
      done := IsDenied(st.pending);
      if done {
        FinishRollbackWith(RolledBack(st));
      }
    }

    method RecordStart(now: int) returns (st: State)
      modifies this
      ensures st == RecordedState(old(disk).Load(), now) && disk == old(disk).(state := disk.state)
      ensures visited == old(visited) + RecordStartTrace(old(disk), now)
      ensures disk == After(old(disk), RecordStartTrace(old(disk), now))
    {
      st := disk.Load();
      if st.Pending() {
        st := st.(starts := LastN(st.starts + [now], MAX_STARTS));
        SaveState(st);
      }
    }

    /** shouldRollback: the larger of the two counts decides. */
    method Decide(st: State, now: int) returns (b: bool)
      ensures b == ShouldRollback(st, ExternalStarts(disk), now)
    {
      hide CountStarts, ExternalStarts;
      if !st.Pending() || st.backup == "" || st.target == "" || st.rolledBack {
        return false;
      }
      var own := CountInWindow(st.starts, now, CRASH_WINDOW);
      var external := CountInWindow(ExternalStarts(disk), now, CRASH_WINDOW);
      return Max(own, external) > CRASH_LIMIT;
    }

    /** Reconcile what the guard did; otherwise record the launch, decide, and roll back. */
    method CheckAndRollback(now: int, later: int, f: RestoreFaults) returns (rolledBack: bool)
      modifies this
      ensures visited == old(visited) + AgentStart(old(disk), now, later, f)
      ensures disk == After(old(disk), AgentStart(old(disk), now, later, f))
      ensures rolledBack ==> disk.target.Some? && disk.target.value.runnable && !disk.Load().Pending()
      ensures rolledBack <==>
              && !GuardRolledBack(old(disk)) && old(disk).backup.Some? && !f.moveFails && !f.chmodFails
              && ShouldRollback(RecordedState(old(disk).Load(), now), ExternalStarts(old(disk)), later)
    {
      hide GuardRolledBack, AgentRollback, RecordStartTrace, RecordedState, ShouldRollback;
      var done := ReconcileGuardRollback();
      if done {
        return false;
      }
      ghost var rec := RecordStartTrace(disk, now);
      var st := RecordStart(now);
      assert ExternalStarts(disk) == ExternalStarts(old(disk));
      var roll := Decide(st, later);
      if !roll {
        return false;
      }
      ghost var back := AgentRollback(disk, st, f);
      rolledBack := RollBack(st, f);
      assert visited == old(visited) + (rec + back);
    }

    method RollBack(st: State, f: RestoreFaults) returns (rolledBack: bool)
      modifies this
      ensures visited == old(visited) + AgentRollback(old(disk), st, f)
      ensures disk == After(old(disk), AgentRollback(old(disk), st, f))
      ensures rolledBack <==> old(disk).backup.Some? && !f.moveFails && !f.chmodFails
      ensures rolledBack ==> disk.target.Some? && disk.target.value.runnable && !disk.Load().Pending()
    {
      hide AgentStart, GuardWatches, ExternalStarts, FinishRollback, DenyTrace;
      rolledBack := RestoreBackup(f);
      if !rolledBack {
        FinishRollbackWith(st.(rolledBack := true, pending := ""));
        return;
      }
      Deny(st.pending);
      FinishRollbackWith(RolledBack(st));
    }

    /** The guard script's restore(). */
    method GuardRestoreBackup(f: GuardFaults)
      modifies this
      ensures visited == old(visited) + GuardRestore(old(disk), f).trace
      ensures disk == After(old(disk), GuardRestore(old(disk), f).trace)
    {
      if disk.backup.None? || f.moveFails {
        return;
      }
      ghost var trace := GuardRestore(disk, f).trace;
      Step(disk.(target := disk.backup, backup := None));
      Step(if f.chmodFails then disk else disk.(target := Some(disk.target.value.(runnable := true))));
      assert visited == old(visited) + trace[..2] && disk == trace[1];
      var version := GuardVersion(disk);
      Step(if version == "" || f.denyFails then disk else disk.(denied := disk.denied + [version]));
      assert visited == old(visited) + trace[..3] && disk == trace[2];
      Step(if f.keepProbation then disk else disk.(probation := None));
      assert visited == old(visited) + trace[..4] && disk == trace[3];
      Step(if f.keepStarts then disk else disk.(starts := []));
    }

    /** The guard appends this launch to its list and keeps the last sixteen. One that can be written makes
        one more in the window, until sixteen are kept; nothing but the list of launches changes. */
    method CountLaunch(now: nat, appendFails: bool, tailFails: bool)
      modifies this
      ensures disk == old(disk).(starts := disk.starts) && (!tailFails ==> |disk.starts| <= MAX_STARTS)
      ensures !appendFails && |old(disk).starts| < MAX_STARTS ==>
                CountStarts(disk.starts, now, CRASH_WINDOW_S) == CountStarts(old(disk).starts, now, CRASH_WINDOW_S) + 1
      ensures var r := GuardCount(old(disk), now, appendFails, tailFails);
              visited == old(visited) + r && disk == After(old(disk), r)
    {
      Step(if appendFails then disk else disk.(starts := disk.starts + [now]));
      Step(if tailFails then disk else disk.(starts := LastN(disk.starts, MAX_STARTS)));
    }

    /** One run of the guard script. */
    method GuardCheck(now: nat, f: GuardRunFaults)
      modifies this
      ensures visited == old(visited) + GuardRun(old(disk), now, f)
      ensures disk == After(old(disk), GuardRun(old(disk), now, f))
    {
      hide GuardRestore, GuardCount, GuardWatches, CountStarts;
      ghost var first := GuardFirst(disk, f);
      if !disk.Launchable() {
        GuardRestoreBackup(f.missing);
      }
      assert visited == old(visited) + first && disk == After(old(disk), first);
      if !GuardWatches(disk, now) {
        return;
      }
      ghost var count := GuardCount(disk, now, f.appendFails, f.tailFails);
      CountLaunch(now, f.appendFails, f.tailFails);
      assert visited == old(visited) + (first + count);
      var recent := CountInWindow(disk.starts, now, CRASH_WINDOW_S);
      if recent > CRASH_LIMIT {
        ghost var restore := GuardRestore(disk, f.looping).trace;
        GuardRestoreBackup(f.looping);
        assert visited == old(visited) + (first + count + restore);
        AfterConcat(old(disk), first + count, restore);
      }
      AfterConcat(old(disk), first, count);
    }

    /** Apply: every check comes before the first step that changes anything. */
    method ApplyUpdate(i: ApplyInput) returns (ok: bool)
      modifies this
      ensures var r := ApplyRun(old(disk), i);
              ok == r.ok && visited == old(visited) + r.trace && disk == After(old(disk), r.trace)
    {
      hide SwapRun, BeginApply, ClearTrace;
      if i.req.version == "" || !i.req.wellFormed || (i.req.current != "" && i.req.version == i.req.current) {
        return false;
      }
      if !i.req.force {
        var denied := IsDenied(i.req.version);
        if denied || disk.Load().finalizing {
          return false;
        }
      }
      if i.req.artifact.None? || !i.req.verified {
        return false;
      }
      BeginUpdate(i);
      ok := Swap(i.req.artifact.value, i.swap);
      if !ok {
        Clear();
      }
    }
  }
}
