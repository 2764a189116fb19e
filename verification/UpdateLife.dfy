/**
 One update from end to end: what Apply puts on probation, what a crash loop then makes of it, and what a
 mark of health does.
 */
module UpdateLife {
  import opened Basics
  import opened Strings
  import opened Denylist
  import opened UpdateDisk
  import opened UpdateOps
  import opened UpdateSwap
  import opened UpdateRollback
  import opened UpdateVerdict

  // ---------------------------------------------------------------- what Apply lets through, and records

  /** Apply touches the disk if and only if it has a whole request for another version than the current one,
      an artifact that passed its checks, and either force or neither a denial nor an outstanding finalizer. */
  lemma ApplyActsIff(d: Disk, i: ApplyInput)
    ensures ApplyRun(d, i).trace != [] <==>
            && i.req.version != "" && i.req.wellFormed && i.req.version != i.req.current
            && i.req.artifact.Some? && i.req.verified
            && (i.req.force || (!d.IsDenied(i.req.version) && !d.Load().finalizing))
  {
    hide Refuse, BeginApply, SwapRun, ClearTrace, Merged;
    RefusesUnless(d, i.req);
  }

  lemma RefusesUnless(d: Disk, req: Request)
    ensures Refuse(d, req).None? <==>
            && req.version != "" && req.wellFormed && req.version != req.current && req.artifact.Some? && req.verified
            && (req.force || (!d.IsDenied(req.version) && !d.Load().finalizing))
  {
    hide Merged;
  }

  lemma BeginRecords(d: Disk, i: ApplyInput)
    ensures var e := After(d, BeginApply(d, i)); var st := e.Load();
            && e.state.Saved? && st.pending == i.req.version && st.previous == i.req.current
            && st.target == i.targetPath && st.backup == BackupPath(i.targetPath) && st.denied == d.Load().denied
            && st.swappedAt == i.now && (!i.markerStays ==> !e.marker)
            && st.starts == [] && !st.healthy && !st.rolledBack && !st.finalizing
            && e.probation == Some(ProbationOf(st)) && e.denied == d.denied
            && e.target == d.target && e.backup == d.backup && (!i.startsStay ==> e.starts == [])
  {
  }

  /** An update that succeeds puts the requested version on probation, with the binary it replaced kept as
      the backup, the version it replaced recorded as the previous one, and nothing denied by it. */
  lemma ApplyRecords(d: Disk, i: ApplyInput, e: Disk)
    requires ApplyRun(d, i).ok && e == After(d, ApplyRun(d, i).trace)
    requires Plain(i.req.version) && i.targetPath != ""
    ensures OnProbation(e) && e.Load().pending == GuardVersion(e) == i.req.version
    ensures e.Load().previous == i.req.current && e.Load().starts == [] && (!i.startsStay ==> e.starts == [])
    ensures e.Load().swappedAt == i.now && (!i.markerStays ==> !e.marker)
    ensures i.req.artifact.Some? && e.target == Some(Exe(i.req.artifact.value, true))
    ensures d.target.Some? && e.backup == d.target
    ensures e.denied == d.denied && e.Load().denied == d.Load().denied
  {
    hide BeginApply;
    var begin := BeginApply(d, i);
    var d1 := After(d, begin);
    var swap := SwapRun(d1, i.req.artifact.value, i.swap);
    BeginRecords(d, i);
    SwapCrashSafe(d1, i.req.artifact.value, i.swap);
    SwapOutcome(d1, i.req.artifact.value, i.swap);
    hide SwapRun;
    AfterConcat(d, begin, swap.trace);
    assert e == After(d1, swap.trace) && SameRecords(d1, e);
  }

  /** An update that fails after it has begun leaves nothing pending, nothing on probation and no mark of
      health; what the denylist file says stays. */
  lemma FailedApplyForgets(d: Disk, i: ApplyInput, e: Disk)
    requires !ApplyRun(d, i).ok && ApplyRun(d, i).trace != [] && e == After(d, ApplyRun(d, i).trace)
    ensures e.state == Missing && e.probation.None? && !e.marker && e.starts == [] && e.denied == d.denied
  {
    hide BeginApply, SwapRun, Refuse, ClearTrace;
    RefusesUnless(d, i.req);
    var begin := BeginApply(d, i);
    var d1 := After(d, begin);
    var swap := SwapRun(d1, i.req.artifact.value, i.swap);
    var d2 := After(d1, swap.trace);
    BeginRecords(d, i);
    SwapCrashSafe(d1, i.req.artifact.value, i.swap);
    assert d2.denied == d1.denied by { assert d2 == d1 || SwapSafe(d1, i.req.artifact.value, d2); }
    ClearForgets(d2);
    assert e == After(d2, ClearTrace(d2)) by { AfterConcat(d, begin + swap.trace, ClearTrace(d2)); }
  }

  lemma ClearForgets(d: Disk)
    ensures var e := After(d, ClearTrace(d));
            && ClearTrace(d) != [] && e.state == Missing && e.probation.None? && !e.marker && e.starts == []
            && e.denied == d.denied
  {
  }

  // ---------------------------------------------------------------- records cut short

  /** What the guard is shown is the record as it was, or one that has been saved. */
  predicate ShownIsSaved(d: Disk, s: Disk) {
    s.probation == d.probation || (s.state.Saved? && s.probation == Some(ProbationOf(s.Load())))
  }

  /** The guard is never shown an update, or the end of a finalizer, that the agent has no record of. */
  lemma GuardIsNeverAhead(d: Disk, i: ApplyInput, failure: string)
    ensures forall s :: s in BeginApply(d, i) ==> ShownIsSaved(d, s)
    ensures forall s :: s in BeginFinalizeTrace(d) ==> ShownIsSaved(d, s)
    ensures forall s :: s in FinalizeOutcomeTrace(d, failure) ==>
              ShownIsSaved(d, s) || (failure != "" && s.probation.None?)
  {
  }

  /** Without a record that can be read the agent does nothing at a start, and holds nothing pending. */
  lemma NoRecordNoAction(d: Disk, now: int, later: int, f: RestoreFaults)
    requires !d.state.Saved?
    ensures AgentStart(d, now, later, f) == [] && !d.Load().Pending() && !d.Load().finalizing
  {
  }

  /** Clearing cut short: from its first step on the agent is quiet, from its third on the guard is. */
  lemma ClearCut(d: Disk, k: nat)
    requires k < |ClearTrace(d)|
    ensures var s := ClearTrace(d)[k];
            && s.state == Missing && s.target == d.target && s.backup == d.backup && s.denied == d.denied
            && forall t: nat :: GuardWatches(s, t) <==> k < 2 && GuardWatches(d, t)
  {
  }

  // ---------------------------------------------------------------- launches, counted

  /** A launch in which nothing fails and the guard can read its clock. */
  predicate Clean(l: Launch) { l.g == NO_GUARD_RUN_FAULTS && Works(l.f) && l.guardNow != 0 }

  /** No clock runs backwards. */
  predicate Ordered(ls: seq<Launch>) {
    && (forall i, j :: 0 <= i <= j < |ls| ==> ls[i].now <= ls[j].now && ls[i].guardNow <= ls[j].guardNow)
    && (forall i :: 0 <= i < |ls| ==> ls[i].now <= ls[i].later && ls[i].guardNow * SECOND <= ls[i].later)
  }

  /** Launch k is the third within the window, by the guard's clock or by the agent's. */
  predicate GuardLoop(ls: seq<Launch>, k: nat) {
    2 <= k < |ls| && ls[k].guardNow - ls[k - 2].guardNow <= CRASH_WINDOW_S
  }

  predicate AgentLoop(ls: seq<Launch>, k: nat) {
    2 <= k < |ls| && ls[k].later - ls[k - 2].now <= CRASH_WINDOW
  }

  predicate Looped(ls: seq<Launch>) {
    exists k :: 0 <= k < |ls| && (GuardLoop(ls, k) || AgentLoop(ls, k))
  }

  function GuardTimes(ls: seq<Launch>): seq<nat> { seq(|ls|, i requires 0 <= i < |ls| => ls[i].guardNow) }
  function AgentTimes(ls: seq<Launch>): seq<int> { seq(|ls|, i requires 0 <= i < |ls| => ls[i].now) }

  /** e with these launches counted by both programs. */
  function Counted(e: Disk, ls: seq<Launch>): Disk {
    e.(starts := LastN(GuardTimes(ls), MAX_STARTS),
       state := Saved(e.Load().(starts := LastN(AgentTimes(ls), MAX_STARTS))))
  }

  /** On an ordered history, more launches than the limit are in the window exactly when the third from the
      end is, and the kept sixteen show it. */
  lemma KeptShowIff(history: seq<int>, now: int, window: int)
    requires Nondecreasing(history) && forall i :: 0 <= i < |history| ==> history[i] <= now
    ensures CountStarts(LastN(history, MAX_STARTS), now, window) > CRASH_LIMIT
            <==> |history| >= 3 && now - history[|history| - 3] <= window
  {
    hide CountStarts;
    KeepingSixteenDecidesAlike(history, now, window);
    if |history| >= 3 {
      LoopShowsAtTheEnd(history, now, window, 3);
    }
  }

  lemma TimesAreOrdered(ls: seq<Launch>)
    requires Ordered(ls) && ls != []
    ensures var l, g := ls[|ls| - 1], GuardTimes(ls);
            && Nondecreasing(g) && (forall i :: 0 <= i < |g| ==> g[i] <= l.guardNow)
            && Nondecreasing(AgentTimes(ls)) && (forall i :: 0 <= i < |ls| ==> AgentTimes(ls)[i] <= l.later)
  {
    var l := ls[|ls| - 1];
    assert forall i :: 0 <= i < |ls| ==> ls[i].guardNow <= l.guardNow && ls[i].now <= l.now <= l.later;
  }

  lemma TimesSnoc(ls: seq<Launch>, l: Launch)
    ensures LastN(GuardTimes(ls + [l]), MAX_STARTS) ==
            LastN(LastN(GuardTimes(ls), MAX_STARTS) + [l.guardNow], MAX_STARTS)
    ensures LastN(AgentTimes(ls + [l]), MAX_STARTS) == LastN(LastN(AgentTimes(ls), MAX_STARTS) + [l.now], MAX_STARTS)
  {
    hide LastN;
    assert GuardTimes(ls + [l]) == GuardTimes(ls) + [l.guardNow];
    assert AgentTimes(ls + [l]) == AgentTimes(ls) + [l.now];
    LastNSnoc(GuardTimes(ls), l.guardNow, MAX_STARTS);
    LastNSnoc(AgentTimes(ls), l.now, MAX_STARTS);
  }

  lemma CountedShow(ls: seq<Launch>)
    requires Ordered(ls) && ls != []
    ensures var l, n := ls[|ls| - 1], |ls| - 1;
            && (CountStarts(LastN(GuardTimes(ls), MAX_STARTS), l.guardNow, CRASH_WINDOW_S) > CRASH_LIMIT
                <==> GuardLoop(ls, n))
            && (CountStarts(LastN(AgentTimes(ls), MAX_STARTS), l.later, CRASH_WINDOW) > CRASH_LIMIT
                <==> AgentLoop(ls, n))
  {
    hide CountStarts, LastN;
    TimesAreOrdered(ls);
    KeptShowIff(GuardTimes(ls), ls[|ls| - 1].guardNow, CRASH_WINDOW_S);
    KeptShowIff(AgentTimes(ls), ls[|ls| - 1].later, CRASH_WINDOW);
  }

  /** The guard's run at one more launch. */
  lemma GuardAtLaunch(e: Disk, ls: seq<Launch>, l: Launch)
    requires OnProbation(e) && e.Launchable() && Clean(l) && Ordered(ls + [l])
    ensures var s := Counted(e, ls);
            var d2 := s.(starts := LastN(GuardTimes(ls + [l]), MAX_STARTS));
            After(s, GuardRun(s, l.guardNow, l.g)) ==
            if GuardLoop(ls + [l], |ls|) then After(d2, GuardRestore(d2, NO_GUARD_FAULTS).trace) else d2
  {
    hide CountStarts, GuardRestore, GuardRun, LastN, GuardTimes, AgentTimes, Ordered, GuardLoop, AgentLoop;
    GuardPhases(Counted(e, ls), l.guardNow, l.g);
    TimesSnoc(ls, l);
    CountedShow(ls + [l]);
  }

  /** The agent's start after a guard that did nothing. */
  lemma AgentAtLaunch(e: Disk, ls: seq<Launch>, l: Launch)
    requires OnProbation(e) && Clean(l) && Ordered(ls + [l]) && !GuardLoop(ls + [l], |ls|)
    ensures var d2 := Counted(e, ls).(starts := LastN(GuardTimes(ls + [l]), MAX_STARTS));
            After(d2, AgentStart(d2, l.now, l.later, l.f)) ==
            if AgentLoop(ls + [l], |ls|) then RolledBackDisk(e) else Counted(e, ls + [l])
  {
    hide CountStarts, AgentStart, LastN, GuardTimes, AgentTimes, Ordered, GuardLoop, AgentLoop;
    var all := ls + [l];
    var d2 := Counted(e, ls).(starts := LastN(GuardTimes(all), MAX_STARTS));
    TimesSnoc(ls, l);
    CountedShow(all);
    GuardTimesShowNothing(d2, all);
    assert OnProbation(d2);
    if AgentLoop(all, |ls|) {
      AgentStartRollsBack(d2, l.now, l.later, l.f);
    } else {
      StartOnlyRecords(d2, l.now, l.later, l.f);
    }
  }

  lemma StartOnlyRecords(d: Disk, now: int, later: int, f: RestoreFaults)
    requires OnProbation(d) && !ShouldRollback(RecordedState(d.Load(), now), ExternalStarts(d), later)
    ensures After(d, AgentStart(d, now, later, f)) == d.(state := Saved(RecordedState(d.Load(), now)))
  {
    hide AgentRollback, CountStarts;
  }

  /** Where the guard sees no loop, the agent reading the guard's launches sees none either. */
  lemma GuardTimesShowNothing(d: Disk, ls: seq<Launch>)
    requires ls != [] && Ordered(ls) && !GuardLoop(ls, |ls| - 1)
    requires d.starts == LastN(GuardTimes(ls), MAX_STARTS)
    ensures CountStarts(ExternalStarts(d), ls[|ls| - 1].later, CRASH_WINDOW) <= CRASH_LIMIT
  {
    hide CountStarts, Ordered;
    var times := seq(|ls|, i requires 0 <= i < |ls| => ls[i].guardNow * SECOND);
    assert ExternalStarts(d) == LastN(times, MAX_STARTS);
    hide ExternalStarts, LastN;
    GuardTimesInOrder(ls, times);
    KeptShowIff(times, ls[|ls| - 1].later, CRASH_WINDOW);
  }

  lemma GuardTimesInOrder(ls: seq<Launch>, times: seq<int>)
    requires ls != [] && Ordered(ls) && !GuardLoop(ls, |ls| - 1)
    requires |times| == |ls| && forall i :: 0 <= i < |ls| ==> times[i] == ls[i].guardNow * SECOND
    ensures Nondecreasing(times) && forall i :: 0 <= i < |times| ==> times[i] <= ls[|ls| - 1].later
    ensures |times| >= 3 ==> ls[|ls| - 1].later - times[|times| - 3] > CRASH_WINDOW
  {
    assert forall i :: 0 <= i < |ls| ==> ls[i].guardNow <= ls[|ls| - 1].guardNow;
  }

  lemma LaunchDecides(e: Disk, ls: seq<Launch>, l: Launch)
    requires OnProbation(e) && e.Launchable() && NotForgotten(e) && Clean(l) && Ordered(ls + [l])
    ensures AfterLaunch(Counted(e, ls), l) ==
            if GuardLoop(ls + [l], |ls|) || AgentLoop(ls + [l], |ls|) then RolledBackDisk(e) else Counted(e, ls + [l])
  {
    hide GuardRun, AgentStart, GuardRestore, Distinct;
    var d2 := Counted(e, ls).(starts := LastN(GuardTimes(ls + [l]), MAX_STARTS));
    GuardAtLaunch(e, ls, l);
    if GuardLoop(ls + [l], |ls|) {
      var g := After(d2, GuardRestore(d2, NO_GUARD_FAULTS).trace);
      GuardThenReconcileIsAgentRollback(d2, l.now, l.later, l.f, g);
    } else {
      AgentAtLaunch(e, ls, l);
    }
  }

  lemma {:induction false} AfterLaunchesSnoc(d: Disk, ls: seq<Launch>, l: Launch)
    ensures AfterLaunches(d, ls + [l]) == AfterLaunch(AfterLaunches(d, ls), l)
    decreases |ls|
  {
    hide AfterLaunch;
    if ls == [] {
      assert ls + [l] == [l] && [l][1..] == [];
    } else {
      assert (ls + [l])[1..] == ls[1..] + [l];
      AfterLaunchesSnoc(AfterLaunch(d, ls[0]), ls[1..], l);
    }
  }

  lemma LoopedSnoc(ls: seq<Launch>, l: Launch)
    ensures Looped(ls + [l]) <==> Looped(ls) || GuardLoop(ls + [l], |ls|) || AgentLoop(ls + [l], |ls|)
  {
    var all := ls + [l];
    forall k | 0 <= k < |ls|
      ensures (GuardLoop(all, k) <==> GuardLoop(ls, k)) && (AgentLoop(all, k) <==> AgentLoop(ls, k))
    {
    }
  }

  /** Launches of a build on probation: rolled back from the third launch within the window on, by whichever
      program sees it first, and until then only counted. */
  lemma {:induction false} LaunchesDecide(e: Disk, ls: seq<Launch>)
    requires OnProbation(e) && e.Launchable() && NotForgotten(e) && e.starts == [] && e.Load().starts == []
    requires Ordered(ls) && forall i :: 0 <= i < |ls| ==> Clean(ls[i])
    ensures AfterLaunches(e, ls) == if Looped(ls) then RolledBackDisk(e) else Counted(e, ls)
  {
    hide AfterLaunch, Clean, OnProbation, NotForgotten, RolledBackDisk, GuardLoop, AgentLoop;
    if ls == [] {
      NoneCounted(e);
    } else {
      var front, l := ls[..|ls| - 1], ls[|ls| - 1];
      assert front + [l] == ls;
      LaunchesDecide(e, front);
      AfterLaunchesSnoc(e, front, l);
      LoopedSnoc(front, l);
      if Looped(front) {
        RollbackSettles(e, [l]);
        assert [l][1..] == [];
      } else {
        LaunchDecides(e, front, l);
      }
    }
  }

  lemma NoneCounted(e: Disk)
    requires OnProbation(e) && e.starts == [] && e.Load().starts == []
    ensures Counted(e, []) == e && !Looped([])
  {
    assert GuardTimes([]) == [] && AgentTimes([]) == [];
  }

  // ---------------------------------------------------------------- from the request to the verdict

  /** The lists show everything they hold, and have room for v unless they hold it. */
  predicate CanList(d: Disk, v: string) { Fits(d) && (Listed(d, v) || HasRoom(d)) }

  lemma RolledBackIsDenied(e: Disk)
    requires OnProbation(e) && CanList(e, e.Load().pending)
    ensures RolledBackDisk(e).IsDenied(e.Load().pending) && NotForgotten(e)
  {
    hide Distinct, Append, Merged;
    var list, file, v, r := e.Load().denied, e.denied, e.Load().pending, RolledBackDisk(e);
    assert list + (file + [v]) == list + file + [v];
    DistinctSnoc(list + file, v);
    if Listed(e, v) {
      RelistingAddsNothing(list, file + [v], v);
    } else {
      OneMoreFits(list, file, v);
    }
    DeniedIffListed(e, v);
    DeniedIffListed(r, v);
  }

  /** An update followed by any clean launches: if some launch is the third within the window, the host ends on
      the binary it was updated from, the requested version is denied and nothing is pending; otherwise it runs
      the new binary, the version is still on probation, and nothing has been denied. */
  lemma CrashLoopIff(d: Disk, i: ApplyInput, e: Disk, ls: seq<Launch>)
    requires ApplyRun(d, i).ok && e == After(d, ApplyRun(d, i).trace)
    requires Plain(i.req.version) && i.targetPath != "" && !i.startsStay && CanList(d, i.req.version)
    requires Ordered(ls) && forall k :: 0 <= k < |ls| ==> Clean(ls[k])
    ensures var f := AfterLaunches(e, ls);
            if Looped(ls) then
              && d.target.Some? && f.target == Some(d.target.value.(runnable := true)) && f.backup.None?
              && f.IsDenied(i.req.version) && !f.Load().Pending() && f.Load().rolledBack && f.probation.None?
            else
              && f.target == e.target && f.backup == d.target && f.Load().pending == i.req.version
              && f.Load().Pending() && f.denied == d.denied && f.Load().denied == d.Load().denied
  {
    hide ApplyRun, Distinct, Plain, AfterLaunches, Looped, Clean, Ordered;
    ApplyRecords(d, i, e);
    RolledBackIsDenied(e);
    LaunchesDecide(e, ls);
  }

  // ---------------------------------------------------------------- a mark of health

  /** A mark on a build on probation ends it: no launch at any time, whatever fails in it, changes anything
      any more. */
  lemma MarkedStays(d: Disk, unproven: bool, m: Disk, ls: seq<Launch>)
    requires d.Load().Pending() && !d.Load().finalizing && d.Launchable()
    requires m == After(d, MarkHealthyRun(d, unproven).trace)
    ensures AfterLaunches(m, ls) == m
    ensures m.target == d.target && m.backup == d.backup && m.denied == d.denied && m.marker
    ensures !m.Load().Pending() && m.Load().unproven == unproven && m.Load().denied == d.Load().denied
  {
    NoSecondRestore(m, ls);
  }

  /** Cut short it does so from the removal of the guard's record on: until then the guard, and before the
      state is saved the agent too, still has the build on probation. */
  lemma MarkCutSettledIff(d: Disk, unproven: bool, k: nat)
    requires OnProbation(d) && d.Launchable() && k < |MarkHealthyRun(d, unproven).trace|
    ensures var s := MarkHealthyRun(d, unproven).trace[k];
            && (Settled(s) <==> k >= 2)
            && (OnProbation(s) <==> k == 0)
            && (forall now :: GuardWatches(s, now) <==> k < 2 && now != 0)
  {
  }
}
