/** What a crash inside Swap, or inside the whole of Apply, can leave, and what the next guard run makes of it. */
module UpdateSwap {
  import opened Basics
  import opened UpdateDisk
  import opened UpdateOps

  /** The files Swap has no business with. */
  predicate SameRecords(a: Disk, b: Disk) {
    && a.state == b.state && a.marker == b.marker && a.probation == b.probation
    && a.starts == b.starts && a.denied == b.denied
  }

  /** The whole old binary, the whole new one, or nothing with the old one saved beside it. */
  predicate SwapSafe(d: Disk, bytes: Bytes, s: Disk) {
    && SameRecords(d, s)
    && (s.target == d.target
        || s.target == Some(Exe(bytes, true))
        || (s.target.None? && s.backup == d.target))
  }

  lemma CopyTouchesOnlyStaging(d: Disk, bytes: Bytes, outcome: CopyOutcome)
    ensures forall s :: s in CopyRun(d, bytes, outcome).trace ==> s == d.(staging := s.staging)
    ensures CopyRun(d, bytes, outcome).ok ==>
              After(d, CopyRun(d, bytes, outcome).trace) == d.(staging := Some(Exe(bytes, true)))
  {
  }

  /** Wherever a crash lands inside Swap, and whichever of its steps fail, the target is whole:
      never part of an artifact, and never gone without its old contents saved. */
  lemma SwapCrashSafe(d: Disk, bytes: Bytes, f: SwapFaults)
    ensures forall s :: s in SwapRun(d, bytes, f).trace ==> SwapSafe(d, bytes, s)
  {
    CopyTouchesOnlyStaging(d, bytes, f.copy);
  }

  /** What a finished Swap promises: success installs the artifact and keeps the old binary; a
      failure leaves the old binary in place, except when the undo itself failed. */
  lemma SwapOutcome(d: Disk, bytes: Bytes, f: SwapFaults)
    ensures var r := SwapRun(d, bytes, f);
            var e := After(d, r.trace);
            if r.ok then e.target == Some(Exe(bytes, true)) && e.backup == d.target && d.target.Some?
            else e.target == d.target || (f.inFails && f.backFails && e.target.None? && e.backup == d.target)
  {
    CopyTouchesOnlyStaging(d, bytes, f.copy);
  }

  /** The staged copy does not outlive a Swap, unless removing it failed or it could not be made executable. */
  lemma SwapCleansUp(d: Disk, bytes: Bytes, f: SwapFaults)
    ensures var r := SwapRun(d, bytes, f); var e := After(d, r.trace);
            && (r.ok ==> e.staging.None?)
            && (!r.ok ==> match f.copy
                          case Copied => !f.removeTmpFails ==> e.staging.None?
                          case CutAt(_, removeFails) => !removeFails ==> e == d.(staging := None)
                          case OpenFailed => e == d
                          case ChmodFailed => e == d.(staging := Some(Exe(bytes, false))))
  {
    CopyTouchesOnlyStaging(d, bytes, f.copy);
    assert bytes[..|bytes|] == bytes;
  }

  predicate HasBinary(d: Disk) { d.target.Some? || d.backup.Some? }

  /** Swap never costs the host its last binary if and only if the target exists when it
      starts, or it never gets to drop the saved one. */
  lemma SwapKeepsABinary(d: Disk, bytes: Bytes, f: SwapFaults)
    requires HasBinary(d)
    ensures (forall s :: s in SwapRun(d, bytes, f).trace ==> HasBinary(s))
            <==> d.target.Some? || !f.copy.Copied? || f.removeOldFails
  {
    CopyTouchesOnlyStaging(d, bytes, f.copy);
    var tr := SwapRun(d, bytes, f).trace;
    if d.target.None? && f.copy.Copied? && !f.removeOldFails {
      var copy := CopyRun(d, bytes, f.copy);
      assert tr[|copy.trace|] == After(d, copy.trace).(backup := None);
      assert !HasBinary(tr[|copy.trace|]);
    }
  }

  /** Binaries are executable wherever they are, and some binary exists. */
  predicate Recoverable(d: Disk) {
    && HasBinary(d)
    && (d.target.Some? ==> d.target.value.runnable)
    && (d.backup.Some? ==> d.backup.value.runnable)
  }

  predicate MovesWork(f: GuardRunFaults) {
    !f.missing.moveFails && !f.looping.moveFails
  }

  /** A guard run, phase by phase: restore a target that cannot run, count the launch, restore
      again if that makes a crash loop. */
  lemma GuardPhases(d: Disk, now: nat, f: GuardRunFaults)
    ensures var d1 := if d.Launchable() then d else After(d, GuardRestore(d, f.missing).trace);
            var d2 := After(d1, GuardCount(d1, now, f.appendFails, f.tailFails));
            After(d, GuardRun(d, now, f)) ==
            if !GuardWatches(d1, now) then d1
            else if CountStarts(d2.starts, now, CRASH_WINDOW_S) > CRASH_LIMIT
              then After(d2, GuardRestore(d2, f.looping).trace)
            else d2
  {
    hide GuardRestore, GuardCount;
    var first := GuardFirst(d, f);
    var d1 := After(d, first);
    var count := GuardCount(d1, now, f.appendFails, f.tailFails);
    var d2 := After(d1, count);
    AfterConcat(d, first, count);
    AfterConcat(d, first + count, GuardRestore(d2, f.looping).trace);
  }

  lemma GuardRestoreRecovers(d: Disk, f: GuardFaults)
    requires Recoverable(d) && !f.moveFails
    ensures var e := After(d, GuardRestore(d, f).trace);
            && Recoverable(e) && e.Launchable()
            && e.target == (if d.backup.Some? then d.backup else d.target)
            && (d.backup.None? ==> e == d)
  {
  }

  /** A guard run whose moves work ends with an executable agent whose contents are one of the
      two binaries that were there. */
  lemma GuardRecovers(d: Disk, now: nat, f: GuardRunFaults)
    requires Recoverable(d) && MovesWork(f)
    ensures var e := After(d, GuardRun(d, now, f));
            e.Launchable() && (e.target == d.target || e.target == d.backup)
  {
    GuardPhases(d, now, f);
    GuardRestoreRecovers(d, f.missing);
    var d1 := if d.Launchable() then d else After(d, GuardRestore(d, f.missing).trace);
    var d2 := After(d1, GuardCount(d1, now, f.appendFails, f.tailFails));
    assert d2 == d1.(starts := d2.starts);
    GuardRestoreRecovers(d2, f.looping);
  }

  /** Crash anywhere inside Swap, run the guard once: the agent is there and can be executed,
      and it is the old binary, the new one, or (only by the guard's own rollback) the saved one. */
  lemma GuardAfterCrashedSwap(d: Disk, bytes: Bytes, f: SwapFaults, s: Disk, now: nat, g: GuardRunFaults, e: Disk)
    requires d.target.Some? && d.target.value.runnable
    requires d.backup.Some? ==> d.backup.value.runnable
    requires s in SwapRun(d, bytes, f).trace
    requires MovesWork(g) && e == After(s, GuardRun(s, now, g))
    ensures e.Launchable()
    ensures e.target == d.target || e.target == Some(Exe(bytes, true)) || e.target == s.backup
    ensures CountStarts(s.starts, now, CRASH_WINDOW_S) < CRASH_LIMIT && |s.starts| < MAX_STARTS ==>
              e.target == d.target || e.target == Some(Exe(bytes, true))
  {
    SwapCrashSafe(d, bytes, f);
    BackupStaysRunnable(d, bytes, f);
    hide SwapRun;
    GuardRecovers(s, now, g);
    if CountStarts(s.starts, now, CRASH_WINDOW_S) < CRASH_LIMIT && |s.starts| < MAX_STARTS {
      OneLaunchIsNoLoop(s, now, g);
    }
    hide GuardRun;
  }

  /** A launch that does not complete a crash loop leaves an executable target alone. */
  lemma OneLaunchIsNoLoop(s: Disk, now: nat, g: GuardRunFaults)
    requires Recoverable(s) && MovesWork(g)
    requires CountStarts(s.starts, now, CRASH_WINDOW_S) < CRASH_LIMIT && |s.starts| < MAX_STARTS
    ensures After(s, GuardRun(s, now, g)).target == if s.target.Some? then s.target else s.backup
  {
    hide GuardRun, GuardRestore;
    GuardPhases(s, now, g);
    GuardRestoreRecovers(s, g.missing);
    GuardRestoreStarts(s, g.missing);
    CountGrowsByOne(s.starts, now);
    CountGrowsByOne([], now);
    hide CountStarts;
  }

  lemma GuardRestoreStarts(d: Disk, f: GuardFaults)
    ensures var e := After(d, GuardRestore(d, f).trace);
            e.starts == d.starts || e.starts == []
  {
  }

  lemma CountGrowsByOne(starts: seq<nat>, now: nat)
    ensures CountStarts(starts + [now], now, CRASH_WINDOW_S) == CountStarts(starts, now, CRASH_WINDOW_S) + 1
  {
    assert (starts + [now])[..|starts + [now]| - 1] == starts;
  }

  lemma BackupStaysRunnable(d: Disk, bytes: Bytes, f: SwapFaults)
    ensures forall s :: s in SwapRun(d, bytes, f).trace ==>
              s.backup.None? || s.backup == d.backup || s.backup == d.target
  {
    CopyTouchesOnlyStaging(d, bytes, f.copy);
  }

  // ---------------------------------------------------------------- the stale backup

  /** A restore from s would bring back the binary d was running, or find nothing. */
  predicate BackupIsPrevious(d: Disk, s: Disk) {
    s.backup.None? || s.backup == d.target
  }

  lemma BeginTouchesNoBinary(d: Disk, i: ApplyInput)
    ensures forall s :: s in BeginApply(d, i) ==>
              s.target == d.target && s.backup == d.backup
  {
  }

  lemma ApplyKeepsBackups(d: Disk, i: ApplyInput, s: Disk)
    requires s in ApplyRun(d, i).trace
    ensures s.backup.None? || s.backup == d.backup || s.backup == d.target
  {
    if Refuse(d, i.req).None? {
      var d1 := After(d, BeginApply(d, i));
      var swap := SwapRun(d1, i.req.artifact.value, i.swap);
      ApplyCases(d, i, s, d1, swap);
      hide ApplyRun;
      BeginTouchesNoBinary(d, i);
      BackupStaysRunnable(d1, i.req.artifact.value, i.swap);
      hide SwapRun;
    }
  }

  // ---------------------------------------------------------------- the last binary

  lemma ClearTouchesNoBinary(d: Disk)
    ensures forall s :: s in ClearTrace(d) ==> s.target == d.target && s.backup == d.backup
  {
  }

  /** The same of Apply, which drops the saved one only if it passes its checks. */
  lemma ApplyKeepsABinary(d: Disk, i: ApplyInput)
    requires HasBinary(d)
    ensures (forall s :: s in ApplyRun(d, i).trace ==> HasBinary(s))
            <==> Refuse(d, i.req).Some? || d.target.Some? || !i.swap.copy.Copied? || i.swap.removeOldFails
  {
    if Refuse(d, i.req).None? {
      hide BeginApply, SwapRun, ClearTrace;
      var begin := BeginApply(d, i);
      var d1 := After(d, begin);
      var swap := SwapRun(d1, i.req.artifact.value, i.swap);
      BeginTouchesNoBinary(d, i);
      SwapKeepsABinary(d1, i.req.artifact.value, i.swap);
      ClearTouchesNoBinary(After(d1, swap.trace));
      assert forall s :: s in swap.trace ==> s in ApplyRun(d, i).trace;
      if forall s :: s in swap.trace ==> HasBinary(s) {
        forall s | s in ApplyRun(d, i).trace ensures HasBinary(s) {
          ApplyCases(d, i, s, d1, swap);
        }
      }
    }
  }

  /** Apply ends with the target gone if and only if it passes its checks and neither the rename in nor the
      rename back works. The old binary is then saved beside it. */
  lemma ApplyLosesTheTargetIff(d: Disk, i: ApplyInput)
    requires d.target.Some?
    ensures var e := After(d, ApplyRun(d, i).trace);
            && (e.target.None? <==> && Refuse(d, i.req).None? && i.swap.copy.Copied? && !i.swap.awayFails
                                    && i.swap.inFails && i.swap.backFails)
            && (e.target.None? ==> e.backup == d.target)
  {
    if Refuse(d, i.req).None? {
      hide BeginApply, ClearTrace;
      var begin := BeginApply(d, i);
      var d1 := After(d, begin);
      var swap := SwapRun(d1, i.req.artifact.value, i.swap);
      BeginTouchesNoBinary(d, i);
      SwapLosesTheTargetIff(d1, i.req.artifact.value, i.swap);
      hide SwapRun;
      var e1 := After(d1, swap.trace);
      ClearTouchesNoBinary(e1);
      AfterConcat(d, begin, swap.trace);
      AfterConcat(d, begin + swap.trace, ClearTrace(e1));
      assert After(e1, ClearTrace(e1)) == e1 || After(e1, ClearTrace(e1)) in ClearTrace(e1);
    }
  }

  lemma SwapLosesTheTargetIff(d: Disk, bytes: Bytes, f: SwapFaults)
    requires d.target.Some?
    ensures var r := SwapRun(d, bytes, f);
            var e := After(d, r.trace);
            && (e.target.None? <==> f.copy.Copied? && !f.awayFails && f.inFails && f.backFails)
            && (e.target.None? ==> !r.ok && e.backup == d.target)
  {
    CopyTouchesOnlyStaging(d, bytes, f.copy);
  }

  /** So two Applies cost a running host its last binary, at some point of the second, if and only if both
      pass their checks and copy, both renames of the first fail after its move aside, and the second can
      drop the backup. */
  lemma TwoAppliesLoseTheLastBinaryIff(d: Disk, i: ApplyInput, j: ApplyInput, e: Disk)
    requires d.target.Some? && e == After(d, ApplyRun(d, i).trace)
    ensures (exists s :: s in ApplyRun(e, j).trace && !HasBinary(s))
            <==> && Refuse(d, i.req).None? && i.swap.copy.Copied? && !i.swap.awayFails
                 && i.swap.inFails && i.swap.backFails
                 && Refuse(e, j.req).None? && j.swap.copy.Copied? && !j.swap.removeOldFails
  {
    ApplyLosesTheTargetIff(d, i);
    hide ApplyRun, Refuse;
    ApplyKeepsABinary(e, j);
  }

  // ---------------------------------------------------------------- a record beside a stale backup

  /** The pending record is written before the stale backup is dropped, so a crash between the
      two puts this update's record beside an older generation. That can happen if and only if the
      update passes its checks on a host whose backup is not its current binary. */
  lemma StaleBackupBesideARecordIff(d: Disk, i: ApplyInput)
    ensures var record := After(d, BeginApply(d, i)).state;
            (exists s :: s in ApplyRun(d, i).trace && s.state == record && !BackupIsPrevious(d, s))
            <==> Refuse(d, i.req).None? && !BackupIsPrevious(d, d)
  {
    hide Refuse, SwapRun, ClearTrace;
    var begin := BeginApply(d, i);
    if Refuse(d, i.req).None? {
      forall s | s in ApplyRun(d, i).trace && !BackupIsPrevious(d, s) ensures !BackupIsPrevious(d, d) {
        ApplyKeepsBackups(d, i, s);
      }
      BeginTouchesNoBinary(d, i);
      assert begin[3] in begin && begin[3] in ApplyRun(d, i).trace;
    }
  }

  /** What that costs: crash right after the record, launch three times within the window, and
      the guard replaces a binary that was never changed with the one from two generations ago. */
  lemma StaleBackupIsRestored(d: Disk, i: ApplyInput, t: nat, f: GuardRunFaults, s: Disk, s1: Disk, s2: Disk, s3: Disk)
    requires d.Launchable() && d.backup.Some? && !i.startsStay && t != 0
    requires MovesWork(f) && !f.appendFails && !f.looping.chmodFails
    requires s == After(d, BeginApply(d, i))
    requires s1 == After(s, GuardRun(s, t, f))
    requires s2 == After(s1, GuardRun(s1, t, f))
    requires s3 == After(s2, GuardRun(s2, t, f))
    ensures s.target == s1.target == s2.target == d.target
    ensures s3.target == Some(d.backup.value.(runnable := true))
  {
    hide GuardRun;
    CountsInOneSecond(t, CRASH_WINDOW_S);
    assert s == s.(starts := []) && GuardWatches(s, t);
    assert s1 == s.(starts := [t]) by {
      GuardCountsLaunch(s, [], t, f);
      assert [] + [t] == [t];
    }
    assert s2 == s.(starts := [t, t]) by {
      GuardCountsLaunch(s, [t], t, f);
      assert [t] + [t] == [t, t];
    }
    assert s3.target == Some(s.backup.value.(runnable := true)) by {
      GuardCountsLaunch(s, [t, t], t, f);
      assert [t, t] + [t] == [t, t, t];
    }
  }

  lemma CountsInOneSecond(t: nat, window: nat)
    ensures CountStarts([t], t, window) == 1
    ensures CountStarts([t, t], t, window) == 2
    ensures CountStarts([t, t, t], t, window) == 3
  {
    assert [t][..0] == [] && [t, t][..1] == [t] && [t, t, t][..2] == [t, t];
  }

  /** One watched launch of an executable target: it is counted, and acted on past the limit. */
  lemma GuardCountsLaunch(d: Disk, before: seq<nat>, t: nat, f: GuardRunFaults)
    requires d.Launchable() && d.backup.Some? && GuardWatches(d, t)
    requires MovesWork(f) && !f.appendFails && !f.looping.chmodFails && |before| < 3
    ensures var s := d.(starts := before);
            var e := After(s, GuardRun(s, t, f));
            if CountStarts(before + [t], t, CRASH_WINDOW_S) > CRASH_LIMIT
              then e.target == Some(d.backup.value.(runnable := true))
              else e == d.(starts := before + [t])
  {
    GuardPhases(d.(starts := before), t, f);
  }
}
