/**
 Whether a version that was rolled back is refused from then on: for every cut of either program's
 rollback, whatever fails in it, and any number of launches afterwards.
 */
module UpdateVerdict {
  import opened Basics
  import opened Strings
  import opened Denylist
  import opened UpdateDisk
  import opened UpdateOps
  import opened UpdateSwap
  import opened UpdateRollback

  predicate Listed(d: Disk, v: string) { v in Distinct(d.Load().denied + d.denied) }

  predicate Fits(d: Disk) { |Distinct(d.Load().denied + d.denied)| <= MAX_DENIED }

  lemma DeniedIffListed(d: Disk, v: string)
    requires Fits(d) && v != ""
    ensures d.IsDenied(v) <==> Listed(d, v)
  {
  }

  // ---------------------------------------------------------------- launches settle nothing more

  /** Nothing is left that a launch could restore and record: the backup has been used, or no update is
      pending or on probation. Any pending version is v. */
  predicate Spent(d: Disk, v: string) {
    && Plain(v) && Fits(d)
    && (d.backup.None? || (d.probation.None? && !d.Load().Pending()))
    && (d.Load().Pending() ==> d.Load().pending == v)
  }

  /** e has d's lists, nothing more pending or on probation, and no backup d did not have. */
  predicate SameLists(d: Disk, e: Disk) {
    && e.denied == d.denied && e.Load().denied == d.Load().denied
    && (e.Load().Pending() ==> d.Load().Pending() && e.Load().pending == d.Load().pending)
    && (d.backup.None? ==> e.backup.None? && e.target == d.target)
    && (d.probation.None? ==> e.probation.None?)
  }

  lemma SameListsKeepVerdict(d: Disk, e: Disk, v: string)
    requires Spent(d, v) && SameLists(d, e)
    ensures Spent(e, v) && (Listed(e, v) <==> Listed(d, v))
  {
    hide Distinct, Plain;
  }

  /** The guard cannot restore, or restores with no version to record. */
  lemma GuardLeavesLists(d: Disk, now: nat, f: GuardRunFaults)
    requires d.backup.None? || (d.probation.None? && !d.Load().Pending())
    ensures SameLists(d, After(d, GuardRun(d, now, f)))
  {
    GuardPhases(d, now, f);
    hide GuardRun, CountStarts;
    RestoreLeavesLists(d, f.missing);
    if d.backup.None? {
      var d2 := After(d, GuardCount(d, now, f.appendFails, f.tailFails));
      assert d2 == d.(starts := d2.starts);
    }
  }

  lemma RestoreLeavesLists(d: Disk, f: GuardFaults)
    requires d.backup.None? || d.probation.None?
    ensures SameLists(d, After(d, GuardRestore(d, f).trace))
    ensures d.backup.None? ==> GuardRestore(d, f).trace == []
  {
  }

  /** An agent start that does not reconcile cannot restore either. */
  lemma StartLeavesLists(d: Disk, now: int, later: int, f: RestoreFaults)
    requires !GuardRolledBack(d) && (d.backup.None? || (d.probation.None? && !d.Load().Pending()))
    ensures SameLists(d, After(d, AgentStart(d, now, later, f))) &&
            After(d, AgentStart(d, now, later, f)).target == d.target
  {
    hide GuardRolledBack, CountStarts;
    if d.Load().Pending() {
      var rec := RecordStartTrace(d, now);
      var d1 := After(d, rec);
      var st := RecordedState(d.Load(), now);
      assert d1 == d.(state := Saved(st)) && st.denied == d.Load().denied;
      FailedRollbackEnds(d1, st, f);
      AfterConcat(d, rec, AgentRollback(d1, st, f));
      hide AgentRollback;
    }
  }

  /** Reconciliation lists a version that is listed already. */
  lemma ReconciledIsDenied(d: Disk)
    requires GuardRolledBack(d)
    ensures d.Load().Pending() && d.IsDenied(d.Load().pending)
  {
  }

  lemma RelistingAddsNothing(list: seq<string>, file: seq<string>, v: string)
    requires Plain(v) && v in Distinct(list + file)
    ensures v in Distinct(Append(list, v) + file) && |Distinct(Append(list, v) + file)| <= |Distinct(list + file)|
  {
    hide Append;
    var all := Append(list, v) + file;
    forall w | w in Distinct(all) ensures w in Distinct(list + file) {
      DistinctSource(all, w);
      var raw :| raw in all && Trim(raw) == w && w != "";
      assert raw in list + file || raw == v;
    }
    NoDupBound(Distinct(all), Distinct(list + file));
    assert v in all;
  }

  lemma ReconcileLeavesVerdict(d: Disk, v: string)
    requires Spent(d, v) && GuardRolledBack(d)
    ensures var e := After(d, FinishRollback(d, RolledBack(d.Load())));
            Spent(e, v) && Listed(e, v) && Listed(d, v) && e.target == d.target && e.backup == d.backup
  {
    hide GuardRolledBack, Distinct, Append, Plain, Merged;
    ReconciledIsDenied(d);
    DeniedIffListed(d, v);
    RelistingAddsNothing(d.Load().denied, d.denied, v);
  }

  lemma StartLeavesVerdict(d: Disk, v: string, now: int, later: int, f: RestoreFaults)
    requires Spent(d, v)
    ensures var e := After(d, AgentStart(d, now, later, f));
            Spent(e, v) && (Listed(e, v) <==> Listed(d, v)) &&
              (d.backup.None? ==> e.backup.None? && e.target == d.target)
  {
    hide Listed, FinishRollback, RolledBack, RecordStartTrace, AgentRollback, Fits;
    if GuardRolledBack(d) {
      ReconcileLeavesVerdict(d, v);
    } else {
      StartLeavesLists(d, now, later, f);
      SameListsKeepVerdict(d, After(d, AgentStart(d, now, later, f)), v);
    }
  }

  lemma LaunchLeavesVerdict(d: Disk, v: string, l: Launch)
    requires Spent(d, v)
    ensures Spent(AfterLaunch(d, l), v) && (Listed(AfterLaunch(d, l), v) <==> Listed(d, v))
    ensures d.backup.None? ==> AfterLaunch(d, l).backup.None? && AfterLaunch(d, l).target == d.target
  {
    hide GuardRun, AgentStart, Listed, Fits, Plain;
    var g := After(d, GuardRun(d, l.guardNow, l.g));
    GuardLeavesLists(d, l.guardNow, l.g);
    SameListsKeepVerdict(d, g, v);
    StartLeavesVerdict(g, v, l.now, l.later, l.f);
  }

  lemma {:induction false} LaunchesLeaveVerdict(d: Disk, v: string, ls: seq<Launch>)
    requires Spent(d, v)
    ensures AfterLaunches(d, ls).IsDenied(v) <==> Listed(d, v)
    ensures d.backup.None? ==> AfterLaunches(d, ls).target == d.target
    decreases |ls|
  {
    if ls == [] {
      DeniedIffListed(d, v);
    } else {
      LaunchLeavesVerdict(d, v, ls[0]);
      hide Spent, Listed, AfterLaunch;
      LaunchesLeaveVerdict(AfterLaunch(d, ls[0]), v, ls[1..]);
    }
  }

  // ---------------------------------------------------------------- the agent's rollback

  /** A start that rolls back a version not yet listed, with room to list it. */
  predicate RollsBack(d: Disk, now: int, later: int) {
    && OnProbation(d) && HasRoom(d) && !Listed(d, d.Load().pending)
    && ShouldRollback(RecordedState(d.Load(), now), ExternalStarts(d), later)
  }

  /** Neither the move nor the chmod fails. */
  predicate Works(f: RestoreFaults) { !f.moveFails && !f.chmodFails }

  /** What each cut of it leaves: the record, the move, the chmod, the append, the save and the two
      removals, or after a failed restore the save and the removals alone. */
  lemma AgentCutIs(d: Disk, now: int, later: int, f: RestoreFaults, i: nat)
    requires OnProbation(d) && ShouldRollback(RecordedState(d.Load(), now), ExternalStarts(d), later)
    requires i < |AgentStart(d, now, later, f)|
    ensures var s, v := AgentStart(d, now, later, f)[i], d.Load().pending;
            && s.denied == (if Works(f) && i >= 3 then d.denied + [v] else d.denied)
            && s.Load().denied == (if Works(f) && i >= 4 then Append(d.Load().denied, v) else d.Load().denied)
            && (s.Load().Pending() ==> s.Load().pending == v)
            && (i >= 1 && !f.moveFails ==> s.backup.None?)
            && (i >= 2 && f.moveFails ==> s.probation.None? && !s.Load().Pending())
            && (i >= 2 && Works(f) ==> s.target == Some(d.backup.value.(runnable := true)))
  {
    hide AgentStart, AgentRollback, Append, ShouldRollback;
    var st := RecordedState(d.Load(), now);
    var d1 := d.(state := Saved(st));
    StartSteps(d, now, later, f);
    RollbackSteps(d1, st, f);
  }

  lemma StartSteps(d: Disk, now: int, later: int, f: RestoreFaults)
    requires OnProbation(d) && ShouldRollback(RecordedState(d.Load(), now), ExternalStarts(d), later)
    ensures var st := RecordedState(d.Load(), now); var d1 := d.(state := Saved(st));
            AgentStart(d, now, later, f) == [d1] + AgentRollback(d1, st, f)
  {
    hide AgentRollback, CountStarts;
  }

  lemma RollbackSteps(d: Disk, st: State, f: RestoreFaults)
    requires d.backup.Some? && Plain(st.pending)
    ensures var moved := d.(target := d.backup, backup := None);
            var restored := moved.(target := Some(d.backup.value.(runnable := true)));
            var denied := restored.(denied := d.denied + [st.pending]);
            var last := if Works(f) then denied else if f.moveFails then d else moved;
            var end := if Works(f) then RolledBack(st) else st.(rolledBack := true, pending := "");
            var done := last.(state := Saved(end));
            AgentRollback(d, st, f) ==
            (if Works(f) then [moved, restored, denied] else if f.moveFails then [] else [moved])
            + [done, done.(probation := None), done.(probation := None, starts := [])]
  {
    hide RolledBack;
  }

  lemma AgentCutLists(d: Disk, now: int, later: int, f: RestoreFaults, i: nat)
    requires RollsBack(d, now, later) && i < |AgentStart(d, now, later, f)|
    ensures var s, v := AgentStart(d, now, later, f)[i], d.Load().pending;
            Fits(s) && Plain(v) && (Listed(s, v) <==> Works(f) && i >= 3)
  {
    hide AgentStart, Distinct, Append, Plain;
    var list, file, v := d.Load().denied, d.denied, d.Load().pending;
    AgentCutIs(d, now, later, f, i);
    OneMoreFits(list, file, v);
  }

  lemma OneMoreFits(list: seq<string>, file: seq<string>, v: string)
    requires Plain(v) && |Distinct(list + file)| < MAX_DENIED && v !in Distinct(list + file)
    ensures |Distinct(list + (file + [v]))| <= MAX_DENIED && v in Distinct(list + (file + [v]))
    ensures |Distinct(Append(list, v) + (file + [v]))| <= MAX_DENIED && v in Distinct(Append(list, v) + (file + [v]))
  {
    hide Append;
    DistinctSnoc(list + file, v);
    assert list + (file + [v]) == list + file + [v];
    DistinctAtMostOneMore(list, file, v);
  }

  /** Which cuts of the agent's rollback leave the version denied: those from the denylist append on, of a
      rollback in which neither the move nor the chmod fails. */
  lemma DeniedFromAppendOn(d: Disk, now: int, later: int, f: RestoreFaults, i: nat)
    requires RollsBack(d, now, later) && i < |AgentStart(d, now, later, f)|
    ensures AgentStart(d, now, later, f)[i].IsDenied(d.Load().pending) <==> Works(f) && i >= 3
  {
    hide AgentStart, Distinct, Plain;
    AgentCutLists(d, now, later, f, i);
    DeniedIffListed(AgentStart(d, now, later, f)[i], d.Load().pending);
  }

  /** And that is for good: once the backup has been moved, or the rollback given up and its probation
      removed, no later launch changes the verdict. */
  lemma AgentCutVerdict(d: Disk, now: int, later: int, f: RestoreFaults, i: nat, ls: seq<Launch>)
    requires RollsBack(d, now, later) && i < |AgentStart(d, now, later, f)|
    requires i >= 2 || (i == 1 && !f.moveFails)
    ensures AfterLaunches(AgentStart(d, now, later, f)[i], ls).IsDenied(d.Load().pending) <==> Works(f) && i >= 3
  {
    hide AgentStart, Listed, Fits, Plain, AfterLaunches;
    AgentCutIs(d, now, later, f, i);
    AgentCutLists(d, now, later, f, i);
    LaunchesLeaveVerdict(AgentStart(d, now, later, f)[i], d.Load().pending, ls);
  }

  /** So a rollback that runs to its end denies the version for good if and only if its move and its
      chmod work: a chmod that fails after the move costs the denial. */
  lemma RollbackDeniesIff(d: Disk, now: int, later: int, f: RestoreFaults, ls: seq<Launch>)
    requires RollsBack(d, now, later)
    ensures AfterLaunches(After(d, AgentStart(d, now, later, f)), ls).IsDenied(d.Load().pending) <==> Works(f)
  {
    hide AgentStart, AgentRollback, AfterLaunches, Distinct, Plain;
    var trace, st := AgentStart(d, now, later, f), RecordedState(d.Load(), now);
    StartSteps(d, now, later, f);
    RollbackSteps(d.(state := Saved(st)), st, f);
    AgentCutVerdict(d, now, later, f, |trace| - 1, ls);
  }

  /** What a crash between the restore and the append costs: the previous binary is back, and the version
      that was rolled back is never denied. */
  lemma RestoredButNeverDenied(d: Disk, now: int, later: int, f: RestoreFaults, s: Disk, ls: seq<Launch>)
    requires RollsBack(d, now, later) && Works(f)
    requires |AgentStart(d, now, later, f)| > 2 && s == AgentStart(d, now, later, f)[2]
    ensures AfterLaunches(s, ls).target == Some(d.backup.value.(runnable := true))
    ensures !AfterLaunches(s, ls).IsDenied(d.Load().pending)
  {
    hide AgentStart, Listed, Fits, Plain, AfterLaunches;
    AgentCutIs(d, now, later, f, 2);
    AgentCutLists(d, now, later, f, 2);
    LaunchesLeaveVerdict(s, d.Load().pending, ls);
  }

  // ---------------------------------------------------------------- the guard's rollback

  lemma GuardCutIs(d: Disk, f: GuardFaults, i: nat)
    requires OnProbation(d) && !f.moveFails && i < |GuardRestore(d, f).trace|
    ensures var s, v := GuardRestore(d, f).trace[i], d.Load().pending;
            && s.denied == (if !f.denyFails && i >= 2 then d.denied + [v] else d.denied)
            && s.state == d.state && s.backup.None?
  {
    hide Distinct;
  }

  /** Which cuts of the guard's restore leave the version denied, whatever is launched afterwards: those
      from its append on, if the append works. */
  lemma GuardCutVerdict(d: Disk, f: GuardFaults, i: nat, ls: seq<Launch>)
    requires OnProbation(d) && HasRoom(d) && !Listed(d, d.Load().pending)
    requires !f.moveFails && i < |GuardRestore(d, f).trace|
    ensures AfterLaunches(GuardRestore(d, f).trace[i], ls).IsDenied(d.Load().pending) <==> !f.denyFails && i >= 2
  {
    hide GuardRestore, Distinct, Plain, AfterLaunches, Append;
    GuardCutIs(d, f, i);
    var s, v := GuardRestore(d, f).trace[i], d.Load().pending;
    OneMoreFits(d.Load().denied, d.denied, v);
    LaunchesLeaveVerdict(s, v, ls);
  }
}
