/**
 Rollback: the agent's own, the guard's followed by the agent's reconciliation, and what a
 crash in the middle of either leaves.
 */
module UpdateRollback {
  import opened Basics
  import opened Strings
  import opened Denylist
  import opened UpdateDisk
  import opened UpdateOps
  import opened UpdateSwap

  // ---------------------------------------------------------------- counting launches

  predicate Nondecreasing(s: seq<int>) {
    forall i, j :: 0 <= i <= j < |s| ==> s[i] <= s[j]
  }

  /** On an ordered history that ends by now, k launches are inside the window exactly when the
      k-th from the end is. */
  lemma {:induction false} LoopShowsAtTheEnd(s: seq<int>, now: int, window: int, k: nat)
    requires Nondecreasing(s)
    requires forall i :: 0 <= i < |s| ==> s[i] <= now
    requires 1 <= k <= |s|
    ensures CountStarts(s, now, window) >= k <==> now - s[|s| - k] <= window
  {
    var front := s[..|s| - 1];
    if front != [] {
      LoopShowsAtTheEnd(front, now, window, 1);
    }
    if k > 1 {
      LoopShowsAtTheEnd(front, now, window, k - 1);
      assert s[|s| - k] == front[|front| - (k - 1)];
    }
  }

  /** Keeping only the last sixteen launches never changes the decision, compared with the full
      history, as long as the clock does not run backwards. */
  lemma KeepingSixteenDecidesAlike(history: seq<int>, now: int, window: int)
    requires Nondecreasing(history)
    requires forall i :: 0 <= i < |history| ==> history[i] <= now
    ensures CountStarts(LastN(history, MAX_STARTS), now, window) > CRASH_LIMIT
            <==> CountStarts(history, now, window) > CRASH_LIMIT
  {
    var kept := LastN(history, MAX_STARTS);
    if |history| >= 3 {
      LoopShowsAtTheEnd(history, now, window, 3);
      LoopShowsAtTheEnd(kept, now, window, 3);
      assert kept[|kept| - 3] == history[|history| - 3];
    }
  }

  /** The list after recording these launches one at a time, trimming after each. */
  function Recorded(launches: seq<int>): (r: seq<int>) {
    if launches == [] then []
    else LastN(Recorded(launches[..|launches| - 1]) + [launches[|launches| - 1]], MAX_STARTS)
  }

  lemma {:induction false} RecordedIsLastSixteen(launches: seq<int>)
    ensures Recorded(launches) == LastN(launches, MAX_STARTS)
  {
    if launches != [] {
      var front, x := launches[..|launches| - 1], launches[|launches| - 1];
      RecordedIsLastSixteen(front);
      LastNSnoc(front, x, MAX_STARTS);
      assert front + [x] == launches;
      hide LastN;
    }
  }

  /** The guard counts in whole seconds and the agent in nanoseconds. On the same launches the
      guard never counts fewer, and the two agree if and only if the clock is on a whole second or
      no launch is exactly at the guard's edge of the window. */
  lemma {:induction false} GuardAndAgentCount(starts: seq<nat>, times: seq<int>, now: nat)
    requires |times| == |starts| && forall i :: 0 <= i < |starts| ==> times[i] == starts[i] * SECOND
    ensures CountStarts(times, now, CRASH_WINDOW) <= CountStarts(starts, now / SECOND, CRASH_WINDOW_S)
    ensures CountStarts(times, now, CRASH_WINDOW) == CountStarts(starts, now / SECOND, CRASH_WINDOW_S)
            <==> now % SECOND == 0 || forall i :: 0 <= i < |starts| ==> starts[i] != now / SECOND - CRASH_WINDOW_S
  {
    if starts != [] {
      var n := |starts|;
      GuardAndAgentCount(starts[..n - 1], times[..n - 1], now);
      assert forall i :: 0 <= i < n - 1 ==> starts[..n - 1][i] == starts[i];
    }
  }

  /** Two launches at 0, sixteen more than a window apart, and one more at 0: a clock set back. */
  function SetBack(): (r: seq<int>)
    ensures |r| == 19
  {
    [0, 0] + Spaced(16) + [0]
  }

  /** Launches each just past the window of the one before. */
  function Spaced(n: nat): (r: seq<int>)
    ensures |r| == n && forall i :: 0 <= i < n ==> r[i] > CRASH_WINDOW
    ensures forall i, j :: 0 <= i < j < n ==> r[j] - r[i] > CRASH_WINDOW
  {
    if n == 0 then []
    else
      var front := Spaced(n - 1);
      front + [(if n == 1 then 0 else front[n - 2]) + CRASH_WINDOW + 1]
  }

  /** Launches outside the window do not count. */
  lemma {:induction false} OutsideDoNotCount(a: seq<int>, b: seq<int>, now: int, window: int)
    requires forall i :: 0 <= i < |b| ==> b[i] > now || now - b[i] > window
    ensures CountStarts(a + b, now, window) == CountStarts(a, now, window)
  {
    if b == [] {
      assert a + b == a;
    } else {
      assert (a + b)[..|a + b| - 1] == a + b[..|b| - 1];
      OutsideDoNotCount(a, b[..|b| - 1], now, window);
    }
  }

  /** At the time of the last of them, launches of which all others are outside the window count one. */
  lemma OnlyTheLast(s: seq<int>, now: int, window: int)
    requires window >= 0 && forall i :: 0 <= i < |s| ==> s[i] > now || now - s[i] > window
    ensures CountStarts(s + [now], now, window) == 1
  {
    assert (s + [now])[..|s|] == s == [] + s;
    OutsideDoNotCount([], s, now, window);
  }

  /** At each of the first eighteen launches no more than two are in the window, on the full history
      and so on the kept one. */
  lemma NoLoopYet(i: nat)
    requires i < 18
    ensures CountStarts(SetBack()[..i + 1], SetBack()[i], CRASH_WINDOW) <= CRASH_LIMIT
  {
    hide Spaced, CountStarts;
    var h := SetBack();
    if i >= 2 {
      assert forall j :: 2 <= j < 18 ==> h[j] == Spaced(16)[j - 2];
      OnlyTheLast(h[..i], h[i], CRASH_WINDOW);
      assert h[..i + 1] == h[..i] + [h[i]];
    }
  }

  lemma {:induction false} KeptCountsNoMore(s: seq<int>, k: nat, now: int, window: int)
    requires k <= |s|
    ensures CountStarts(s[k..], now, window) <= CountStarts(s, now, window)
  {
    if k < |s| {
      assert s[k..][..|s[k..]| - 1] == s[..|s| - 1][k..];
      KeptCountsNoMore(s[..|s| - 1], k, now, window);
    }
  }

  lemma FullHistoryShowsIt()
    ensures SetBack()[18] == 0 && CountStarts(SetBack(), 0, CRASH_WINDOW) > CRASH_LIMIT
  {
    hide Spaced;
    var h := SetBack();
    OutsideDoNotCount([0, 0], Spaced(16), 0, CRASH_WINDOW);
    assert h[..18] == [0, 0] + Spaced(16);
    assert [0, 0][..1] == [0];
    assert CountStarts([0, 0], 0, CRASH_WINDOW) == 2;
  }

  lemma KeptHideIt()
    ensures CountStarts(Recorded(SetBack()), 0, CRASH_WINDOW) <= CRASH_LIMIT
  {
    hide Spaced, CountStarts, Recorded;
    RecordedIsLastSixteen(SetBack());
    var rest := Spaced(16)[1..];
    assert LastN(SetBack(), MAX_STARTS) == rest + [0];
    OnlyTheLast(rest, 0, CRASH_WINDOW);
  }

  /** With a clock that runs backwards the kept sixteen can hide a crash loop: no launch before the last
      of these triggers a rollback, at the last the full history shows three in the window, and the kept
      launches do not. */
  lemma SixteenCanHideALoop()
    ensures forall i :: 0 <= i < 18 ==>
              CountStarts(Recorded(SetBack()[..i + 1]), SetBack()[i], CRASH_WINDOW) <= CRASH_LIMIT
    ensures SetBack()[18] == 0 && CountStarts(SetBack(), 0, CRASH_WINDOW) > CRASH_LIMIT
    ensures CountStarts(Recorded(SetBack()), 0, CRASH_WINDOW) <= CRASH_LIMIT
  {
    hide CountStarts, Recorded, SetBack;
    forall i | 0 <= i < 18
      ensures CountStarts(Recorded(SetBack()[..i + 1]), SetBack()[i], CRASH_WINDOW) <= CRASH_LIMIT
    {
      var h := SetBack()[..i + 1];
      NoLoopYet(i);
      RecordedIsLastSixteen(h);
      KeptCountsNoMore(h, |h| - |LastN(h, MAX_STARTS)|, SetBack()[i], CRASH_WINDOW);
    }
    FullHistoryShowsIt();
    KeptHideIt();
  }

  // ---------------------------------------------------------------- the two rollbacks agree

  /** An update on probation, with both programs' records of it in place and something to restore. */
  predicate OnProbation(d: Disk) {
    && d.state.Saved? && d.Load().Pending() && !d.Load().rolledBack && !d.Load().finalizing
    && d.Load().backup != "" && d.Load().target != "" && Plain(d.Load().pending)
    && d.probation == Some(ProbationOf(d.Load()))
    && d.backup.Some?
  }

  /** The version was never denied, or the merged list still shows that it was. */
  predicate NotForgotten(d: Disk) {
    var v := d.Load().pending;
    v in Distinct(d.Load().denied + d.denied) ==> d.IsDenied(v)
  }

  /** The disk a completed rollback leaves. */
  function RolledBackDisk(d: Disk): Disk
    requires d.backup.Some?
  {
    d.(target := Some(d.backup.value.(runnable := true)), backup := None,
       state := Saved(RolledBack(d.Load())), probation := None, starts := [],
       denied := d.denied + [d.Load().pending])
  }

  lemma AgentRollbackEnds(d: Disk, st: State, f: RestoreFaults)
    requires OnProbation(d) && st == d.Load() && !f.moveFails && !f.chmodFails
    ensures After(d, AgentRollback(d, st, f)) == RolledBackDisk(d)
  {
  }

  const NO_GUARD_FAULTS := GuardFaults(false, false, false, false, false)

  lemma GuardRestoreEnds(d: Disk)
    requires OnProbation(d)
    ensures After(d, GuardRestore(d, NO_GUARD_FAULTS).trace) ==
            d.(target := Some(d.backup.value.(runnable := true)), backup := None, probation := None, starts := [],
               denied := d.denied + [d.Load().pending])
  {
  }

  lemma DeniedAfterGuardAppend(d: Disk)
    requires Plain(d.Load().pending)
    ensures var v := d.Load().pending;
            v in Merged(d.Load().denied, d.denied + [v]) <==> NotForgotten(d)
  {
    var st, v := d.Load(), d.Load().pending;
    var all := st.denied + d.denied;
    assert st.denied + (d.denied + [v]) == all + [v];
    DistinctSnoc(all, v);
    if v !in Distinct(all) {
      var r := Distinct(all + [v]);
      assert r[|r| - 1] == v;
      var kept := LastN(r, MAX_DENIED);
      assert kept[|kept| - 1] == v;
    }
  }

  /** A rollback done by the guard and then reconciled at agent start leaves the very disk the
      agent's own rollback leaves: state, denylist, probation files and binaries. That holds if
      and only if the version has not already been denied and pushed off the bounded list. */
  lemma GuardThenReconcileIsAgentRollback(d: Disk, now: int, later: int, f: RestoreFaults, g: Disk)
    requires OnProbation(d)
    requires g == After(d, GuardRestore(d, NO_GUARD_FAULTS).trace)
    ensures After(g, AgentStart(g, now, later, f)) == RolledBackDisk(d) <==> NotForgotten(d)
  {
    GuardRestoreEnds(d);
    DeniedAfterGuardAppend(d);
    assert g.Load() == d.Load();
    assert GuardRolledBack(g) <==> NotForgotten(d);
    if !NotForgotten(d) {
      StartWithNothingToRestore(g, now, later, f);
    }
  }

  /** A start on a pending record that was not reconciled and has no backup leaves a trace of the
      record: either it is still pending, or its launches are still listed. */
  lemma StartWithNothingToRestore(g: Disk, now: int, later: int, f: RestoreFaults)
    requires g.Load().Pending() && g.backup.None? && !GuardRolledBack(g)
    ensures var e := After(g, AgentStart(g, now, later, f));
            e.Load().pending != "" || e.Load().starts != []
  {
    var rec := RecordStartTrace(g, now);
    var g1 := After(g, rec);
    var st := RecordedState(g.Load(), now);
    FailedRollbackEnds(g1, st, f);
    AfterConcat(g, rec, AgentRollback(g1, st, f));
    hide AgentRollback;
  }

  lemma FailedRollbackEnds(d: Disk, st: State, f: RestoreFaults)
    requires d.backup.None?
    ensures After(d, AgentRollback(d, st, f)) ==
            d.(state := Saved(st.(rolledBack := true, pending := "")), probation := None, starts := [])
  {
  }

  /** The agent's own rollback reaches the same disk, whatever it and the guard had counted. */
  lemma AgentStartRollsBack(d: Disk, now: int, later: int, f: RestoreFaults)
    requires OnProbation(d) && !f.moveFails && !f.chmodFails
    requires ShouldRollback(RecordedState(d.Load(), now), ExternalStarts(d), later)
    ensures After(d, AgentStart(d, now, later, f)) == RolledBackDisk(d)
  {
    var rec := RecordStartTrace(d, now);
    var d1 := After(d, rec);
    var st := RecordedState(d.Load(), now);
    AgentRollbackEnds(d1, st, f);
    AfterConcat(d, rec, AgentRollback(d1, st, f));
  }

  const NO_GUARD_RUN_FAULTS := GuardRunFaults(NO_GUARD_FAULTS, NO_GUARD_FAULTS, false, false)

  /** The two ways out of a crash loop, from the same disk: let the guard act and the restored
      agent reconcile, or let the agent act. They end on the same disk, byte for byte, if and only
      if the version had not been denied before and forgotten since. */
  lemma RollbacksAgree(d: Disk, secs: nat, now: int, later: int, f: RestoreFaults,
                       now2: int, later2: int, f2: RestoreFaults, g: Disk)
    requires OnProbation(d) && d.Launchable() && secs != 0
    requires CountStarts(LastN(d.starts + [secs], MAX_STARTS), secs, CRASH_WINDOW_S) > CRASH_LIMIT
    requires g == After(d, GuardRun(d, secs, NO_GUARD_RUN_FAULTS))
    requires !f.moveFails && !f.chmodFails
    requires ShouldRollback(RecordedState(d.Load(), now), ExternalStarts(d), later)
    ensures After(g, AgentStart(g, now2, later2, f2)) == After(d, AgentStart(d, now, later, f))
            <==> NotForgotten(d)
  {
    GuardPhases(d, secs, NO_GUARD_RUN_FAULTS);
    var d2 := d.(starts := LastN(d.starts + [secs], MAX_STARTS));
    assert After(d, GuardCount(d, secs, false, false)) == d2;
    assert g == After(d2, GuardRestore(d2, NO_GUARD_FAULTS).trace);
    hide AgentStart;
    GuardThenReconcileIsAgentRollback(d2, now2, later2, f2, g);
    AgentStartRollsBack(d, now, later, f);
  }

  // ---------------------------------------------------------------- nothing more to restore

  /** Nothing pending, nothing on probation, an executable agent. */
  predicate Settled(d: Disk) {
    !d.Load().Pending() && d.probation.None? && d.Launchable()
  }

  /** One launch by the service manager: the guard, then the agent. */
  datatype Launch = Launch(guardNow: nat, g: GuardRunFaults, now: int, later: int, f: RestoreFaults)

  function AfterLaunch(d: Disk, l: Launch): Disk {
    var g := After(d, GuardRun(d, l.guardNow, l.g));
    After(g, AgentStart(g, l.now, l.later, l.f))
  }

  function AfterLaunches(d: Disk, ls: seq<Launch>): Disk
    decreases |ls|
  {
    if ls == [] then d else AfterLaunches(AfterLaunch(d, ls[0]), ls[1..])
  }

  /** After a rollback, by either program, no number of later launches at any times restores
      anything again: the disk does not change at all until the next update begins. */
  lemma {:induction false} NoSecondRestore(d: Disk, ls: seq<Launch>)
    requires Settled(d)
    ensures AfterLaunches(d, ls) == d
    decreases |ls|
  {
    if ls != [] {
      var l := ls[0];
      assert GuardRun(d, l.guardNow, l.g) == [];
      assert AgentStart(d, l.now, l.later, l.f) == [];
      NoSecondRestore(d, ls[1..]);
    }
  }

  lemma RollbackSettles(d: Disk, ls: seq<Launch>)
    requires OnProbation(d)
    ensures AfterLaunches(RolledBackDisk(d), ls) == RolledBackDisk(d)
  {
    NoSecondRestore(RolledBackDisk(d), ls);
  }

  // ---------------------------------------------------------------- one more version on the lists

  /** The denylist has room: nothing can be pushed off by one more version. */
  predicate HasRoom(d: Disk) {
    |Distinct(d.Load().denied + d.denied)| < MAX_DENIED
  }

  lemma ListedAfterAppend(list: seq<string>, file: seq<string>, v: string)
    requires Plain(v) && |Distinct(list + file)| < MAX_DENIED && v !in Distinct(list + file)
    ensures v !in Merged(list, file)
    ensures v in Merged(list, file + [v])
    ensures v in Merged(Append(list, v), file + [v])
  {
    hide Distinct, Append;
    DistinctSnoc(list + file, v);
    assert list + (file + [v]) == list + file + [v];
    DistinctAtMostOneMore(list, file, v);
  }

  /** Listing a version in both places makes the merged list at most one longer. */
  lemma DistinctAtMostOneMore(list: seq<string>, file: seq<string>, v: string)
    requires Plain(v) && |Distinct(list + file)| < MAX_DENIED && v !in Distinct(list + file)
    ensures |Distinct(Append(list, v) + (file + [v]))| <= MAX_DENIED
    ensures v in Distinct(Append(list, v) + (file + [v]))
  {
    var a := Append(list, v) + (file + [v]);
    var before := Distinct(list + file);
    var after := Distinct(a);
    forall w | w in after ensures w in before || w == v {
      DistinctSource(a, w);
      var raw :| raw in a && Trim(raw) == w && w != "";
      if raw in list + file {
        assert Trim(raw) in before;
      }
    }
    NoDupBound(after, before + [v]);
    assert v in a;
  }

  lemma {:induction false} DistinctSource(vs: seq<string>, v: string)
    requires v in Distinct(vs)
    ensures exists w :: w in vs && Trim(w) == v && v != ""
  {
    var prefix, last := vs[..|vs| - 1], vs[|vs| - 1];
    assert last in vs;
    if v in Distinct(prefix) {
      DistinctSource(prefix, v);
      var w :| w in prefix && Trim(w) == v && v != "";
      assert w in vs;
    } else {
      assert Trim(last) == v;
    }
  }

  /** A list without repetitions is no longer than one that covers it. */
  lemma {:induction false} NoDupBound(a: seq<string>, b: seq<string>)
    requires forall i, j :: 0 <= i < j < |a| ==> a[i] != a[j]
    requires forall v :: v in a ==> v in b
    ensures |a| <= |b|
  {
    if a != [] {
      var n := |a| - 1;
      assert a[n] in a && a[n] in b;
      var k :| 0 <= k < |b| && b[k] == a[n];
      var rest := b[..k] + b[k + 1..];
      forall v | v in a[..n] ensures v in rest {
        var i :| 0 <= i < n && a[i] == v;
        assert v in b && v != b[k];
        var j :| 0 <= j < |b| && b[j] == v;
        assert j != k;
        assert if j < k then rest[j] == v else rest[j - 1] == v;
      }
      NoDupBound(a[..n], rest);
    }
  }
}
