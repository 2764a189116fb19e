/**
 Whole histories of a host: updates, launches, health marks, finalizers, cleared or corrupted
 state, in any order, each finishing or dying at any file step.
 */
module UpdateRuns {
  import opened Basics
  import opened Strings
  import opened Denylist
  import opened UpdateDisk
  import opened UpdateOps
  import opened UpdateSwap
  import opened UpdateRollback

  datatype Op =
    | Apply(input: ApplyInput)
    | Guard(secs: nat, g: GuardRunFaults)
    | Start(now: int, later: int, f: RestoreFaults)
    | Health(unproven: bool)
    | Finalize
    | FinalizerReports(failure: string)
    | Forget
    | Corruption

  function Trace(d: Disk, op: Op): (r: seq<Disk>) {
    match op
    case Apply(i) => ApplyRun(d, i).trace
    case Guard(secs, g) => GuardRun(d, secs, g)
    case Start(now, later, f) => AgentStart(d, now, later, f)
    case Health(u) => MarkHealthyRun(d, u).trace
    case Finalize => BeginFinalizeTrace(d)
    case FinalizerReports(e) => FinalizeOutcomeTrace(d, e)
    case Forget => ClearTrace(d)
    case Corruption => [d.(state := Corrupt)]
  }

  /** A history: each operation leaves the next disk, having finished or crashed. */
  predicate History(disks: seq<Disk>, ops: seq<Op>) {
    && |disks| == |ops| + 1
    && forall i :: 0 <= i < |ops| ==> Leaves(disks[i], Trace(disks[i], ops[i]), disks[i + 1])
  }

  // ---------------------------------------------------------------- the denylist over a history

  /** Every version in the agent's own list that fits on a line is also in the file. */
  predicate Covered(d: Disk) {
    forall v :: v in d.Load().denied && Trim(v) != "" && '\n' !in Trim(v) ==> Trim(v) in Distinct(d.denied)
  }

  /** The denylist file only ever grows, and the state's list stays inside it. */
  predicate Grows(d: Disk, s: Disk) {
    d.denied <= s.denied && (Covered(d) ==> Covered(s))
  }

  /** The file is untouched, and the state's list is empty or what it was. */
  predicate ListsKept(d: Disk, s: Disk) {
    s.denied == d.denied && (s.Load().denied == d.Load().denied || s.Load().denied == [])
  }

  lemma KeptGrows(d: Disk, s: Disk)
    requires ListsKept(d, s)
    ensures Grows(d, s)
  {
  }

  lemma FileGrows(d: Disk, s: Disk)
    requires d.denied <= s.denied && s.Load().denied == d.Load().denied
    ensures Grows(d, s)
  {
    assert s.denied == d.denied + s.denied[|d.denied|..];
    DistinctPrefix(d.denied, s.denied[|d.denied|..]);
    var a, b := Distinct(d.denied), Distinct(s.denied);
    forall v | v in a ensures v in b {
      var i :| 0 <= i < |a| && a[i] == v;
      assert b[..|a|][i] == b[i] == v;
    }
  }

  lemma BeginKeepsLists(d: Disk, i: ApplyInput)
    ensures forall s :: s in BeginApply(d, i) ==> ListsKept(d, s)
  {
  }

  lemma ApplyKeepsLists(d: Disk, i: ApplyInput, s: Disk)
    requires s in ApplyRun(d, i).trace
    ensures ListsKept(d, s)
  {
    if Refuse(d, i.req).None? {
      var d1 := After(d, BeginApply(d, i));
      var swap := SwapRun(d1, i.req.artifact.value, i.swap);
      ApplyCases(d, i, s, d1, swap);
      hide ApplyRun;
      SwapCrashSafe(d1, i.req.artifact.value, i.swap);
      hide SwapRun, Refuse;
      BeginKeepsLists(d, i);
      hide BeginApply;
    }
  }

  lemma GuardRestoreGrows(d: Disk, f: GuardFaults)
    ensures forall s :: s in GuardRestore(d, f).trace ==> s.Load() == d.Load() && d.denied <= s.denied
  {
  }

  lemma GuardGrows(d: Disk, secs: nat, g: GuardRunFaults, s: Disk)
    requires s in GuardRun(d, secs, g)
    ensures s.Load() == d.Load() && d.denied <= s.denied
  {
    var d1 := After(d, GuardFirst(d, g));
    var d2 := After(d1, GuardCount(d1, secs, g.appendFails, g.tailFails));
    hide GuardRun, GuardRestore;
    GuardCases(d, secs, g, s, d1, d2);
    GuardRestoreGrows(d, g.missing);
    assert d1.Load() == d.Load() && d.denied <= d1.denied;
    GuardRestoreGrows(d2, g.looping);
  }

  /** Deny, then save a list with the same version on it: still covered by the file. */
  lemma DenyCovers(d: Disk, s: Disk, version: string)
    requires Covered(d) && d.denied <= s.denied
    requires Trim(version) == "" || '\n' in Trim(version) || Trim(version) in Distinct(s.denied)
    requires s.Load().denied == Append(d.Load().denied, version)
    ensures Covered(s)
  {
    DistinctGrows(d.denied, s.denied);
  }

  lemma DistinctGrows(a: seq<string>, b: seq<string>)
    requires a <= b
    ensures forall v :: v in Distinct(a) ==> v in Distinct(b)
  {
    assert b == a + b[|a|..];
    DistinctPrefix(a, b[|a|..]);
    var x, y := Distinct(a), Distinct(b);
    forall v | v in x ensures v in y {
      var i :| 0 <= i < |x| && x[i] == v;
      assert y[..|x|][i] == y[i] == v;
    }
  }

  /** What a rollback writes, step by step: the file gets the version no later than the state does. */
  predicate RollbackLists(d: Disk, version: string, s: Disk) {
    || ListsKept(d, s)
    || (s.denied == d.denied + Lines(Trim(version)) && s.Load().denied == d.Load().denied)
    || (Trim(version) == "" && s.denied == d.denied && s.Load().denied == Append(d.Load().denied, version))
    || (s.denied == d.denied + Lines(Trim(version)) && s.Load().denied == Append(d.Load().denied, version))
  }

  lemma AgentRollbackLists(d: Disk, st: State, f: RestoreFaults)
    requires st.denied == d.Load().denied
    ensures forall s :: s in AgentRollback(d, st, f) ==> RollbackLists(d, st.pending, s)
  {
    hide Lines, Append, Trim;
  }

  lemma RollbackListsGrow(d: Disk, version: string, s: Disk)
    requires RollbackLists(d, version, s)
    ensures Grows(d, s)
  {
    var v := Trim(version);
    if ListsKept(d, s) {
      KeptGrows(d, s);
    } else if Covered(d) {
      if s.denied != d.denied && '\n' !in v && v != "" {
        assert Lines(v) == [v];
        assert v in s.denied;
      }
      DistinctGrows(d.denied, s.denied);
      if s.Load().denied != d.Load().denied {
        DenyCovers(d, s, version);
      }
    }
  }

  lemma ReconcileGrows(d: Disk, s: Disk)
    requires GuardRolledBack(d) && s in FinishRollback(d, RolledBack(d.Load()))
    ensures Grows(d, s)
  {
    var st := d.Load();
    assert s.denied == d.denied && s.Load().denied == Append(st.denied, st.pending);
    hide FinishRollback;
    if Covered(d) {
      DistinctSource(st.denied + d.denied, st.pending);
      assert Trim(st.pending) == st.pending;
      if '\n' !in st.pending {
        DeniedIsInFile(d, st.pending);
      }
      DenyCovers(d, s, st.pending);
    }
  }

  lemma StartGrows(d: Disk, now: int, later: int, f: RestoreFaults, s: Disk)
    requires s in AgentStart(d, now, later, f)
    ensures Grows(d, s)
  {
    var d1 := After(d, RecordStartTrace(d, now));
    var st := RecordedState(d.Load(), now);
    StartCases(d, now, later, f, s, d1, st);
    hide AgentStart, AgentRollback, Covered, FinishRollback, GuardRolledBack;
    if s in RecordStartTrace(d, now) {
      KeptGrows(d, s);
    } else if s in AgentRollback(d1, st, f) {
      AgentRollbackLists(d1, st, f);
      RollbackListsGrow(d1, st.pending, s);
      KeptGrows(d, d1);
    } else {
      ReconcileGrows(d, s);
    }
  }

  /** A version the host refuses, if it fits on a line, is in the file. */
  lemma DeniedIsInFile(d: Disk, v: string)
    requires Covered(d) && d.IsDenied(v) && '\n' !in v
    ensures v in Distinct(d.denied)
  {
    var all := d.Load().denied + d.denied;
    DistinctSource(all, v);
    var w :| w in all && Trim(w) == v && v != "";
    assert w in d.Load().denied || w in d.denied;
  }

  lemma StepGrows(d: Disk, op: Op, s: Disk)
    requires Leaves(d, Trace(d, op), s)
    ensures Grows(d, s)
  {
    if s != d {
      match op
      case Apply(i) => ApplyKeepsLists(d, i, s); KeptGrows(d, s);
      case Guard(secs, g) => GuardGrows(d, secs, g, s); FileGrows(d, s);
      case Start(now, later, f) => StartGrows(d, now, later, f, s);
      case _ => KeptGrows(d, s);
    }
  }

  lemma {:induction false} HistoryGrows(disks: seq<Disk>, ops: seq<Op>, i: nat, j: nat)
    requires History(disks, ops) && i <= j < |disks|
    ensures disks[i].denied <= disks[j].denied
    ensures Covered(disks[i]) ==> Covered(disks[j])
    decreases j - i
  {
    hide Trace, Covered;
    if i < j {
      StepGrows(disks[i], ops[i], disks[i + 1]);
      HistoryGrows(disks, ops, i + 1, j);
    }
  }

  /** A version this host has rolled back stays refused for ever: through further updates, guard
      and agent rollbacks, cleared and corrupted state files, and crashes at any file step, as long
      as no more than 32 distinct versions are listed. An Apply for it without force then stops
      before it downloads, records or moves anything. */
  lemma DeniedForGood(disks: seq<Disk>, ops: seq<Op>, i: nat, j: nat, v: string, input: ApplyInput)
    requires History(disks, ops) && i <= j < |disks|
    requires Covered(disks[0])
    requires disks[i].IsDenied(v) && '\n' !in v
    requires |Distinct(disks[j].Load().denied + disks[j].denied)| <= MAX_DENIED
    requires input.req.version == v && !input.req.force
    ensures disks[j].IsDenied(v)
    ensures ApplyRun(disks[j], input) == Run([], false)
    ensures input.req.wellFormed && input.req.current != v ==> Refuse(disks[j], input.req) == Some(VersionDenied)
  {
    HistoryGrows(disks, ops, 0, i);
    HistoryGrows(disks, ops, i, j);
    DeniedIsInFile(disks[i], v);
    DistinctGrows(disks[i].denied, disks[j].denied);
    DistinctSource(disks[j].denied, v);
    var w :| w in disks[j].denied && Trim(w) == v && v != "";
    assert w in disks[j].Load().denied + disks[j].denied;
  }

  // ---------------------------------------------------------------- the binaries over a history

  /** Every binary on disk is executable and is one of the known generations, and there is one. */
  predicate Sound(d: Disk, known: set<Bytes>) {
    && Recoverable(d)
    && (d.target.Some? ==> d.target.value.bytes in known)
    && (d.backup.Some? ==> d.backup.value.bytes in known)
  }

  /** An update runs from a binary that exists and installs a known artifact. */
  predicate Proper(d: Disk, op: Op, known: set<Bytes>) {
    op.Apply? ==> d.target.Some? && (op.input.req.artifact.Some? ==> op.input.req.artifact.value in known)
  }

  lemma ApplyKeepsSound(d: Disk, i: ApplyInput, known: set<Bytes>, s: Disk)
    requires Sound(d, known) && Proper(d, Apply(i), known)
    requires s in ApplyRun(d, i).trace
    ensures Sound(s, known)
  {
    if Refuse(d, i.req).None? {
      var d1 := After(d, BeginApply(d, i));
      var swap := SwapRun(d1, i.req.artifact.value, i.swap);
      ApplyCases(d, i, s, d1, swap);
      hide ApplyRun;
      BeginTouchesNoBinary(d, i);
      hide BeginApply;
      SwapKeepsSound(d1, i.req.artifact.value, i.swap, known);
      hide SwapRun;
    }
  }

  lemma SwapKeepsSound(d: Disk, bytes: Bytes, f: SwapFaults, known: set<Bytes>)
    requires Sound(d, known) && d.target.Some? && bytes in known
    ensures forall s :: s in SwapRun(d, bytes, f).trace ==> Sound(s, known)
  {
    hide SwapRun;
    SwapCrashSafe(d, bytes, f);
    BackupStaysRunnable(d, bytes, f);
    SwapKeepsABinary(d, bytes, f);
  }

  /** A restore moves the backup over the target, and nothing else touches either. */
  predicate MovedBack(d: Disk, s: Disk) {
    || (s.target == d.target && s.backup == d.backup)
    || (d.backup.Some? && s.backup.None?
        && (s.target == d.backup || s.target == Some(d.backup.value.(runnable := true))))
  }

  lemma GuardRestoreMoves(d: Disk, f: GuardFaults)
    ensures forall s :: s in GuardRestore(d, f).trace ==> MovedBack(d, s)
  {
  }

  lemma GuardMoves(d: Disk, secs: nat, g: GuardRunFaults, known: set<Bytes>, s: Disk)
    requires Sound(d, known) && s in GuardRun(d, secs, g)
    ensures Sound(s, known)
  {
    var d1 := After(d, GuardFirst(d, g));
    var d2 := After(d1, GuardCount(d1, secs, g.appendFails, g.tailFails));
    hide GuardRun, GuardRestore;
    GuardCases(d, secs, g, s, d1, d2);
    GuardRestoreMoves(d, g.missing);
    assert MovedBack(d, d1);
    GuardRestoreMoves(d2, g.looping);
  }

  lemma AgentRollbackMoves(d: Disk, st: State, f: RestoreFaults)
    ensures forall s :: s in AgentRollback(d, st, f) ==> MovedBack(d, s)
  {
  }

  lemma StartMoves(d: Disk, now: int, later: int, f: RestoreFaults, s: Disk)
    requires s in AgentStart(d, now, later, f)
    ensures MovedBack(d, s)
  {
    var d1 := After(d, RecordStartTrace(d, now));
    var st := RecordedState(d.Load(), now);
    StartCases(d, now, later, f, s, d1, st);
    hide AgentStart, AgentRollback;
    AgentRollbackMoves(d1, st, f);
  }

  lemma StepKeepsSound(d: Disk, op: Op, s: Disk, known: set<Bytes>)
    requires Sound(d, known) && Proper(d, op, known)
    requires Leaves(d, Trace(d, op), s)
    ensures Sound(s, known)
  {
    if s != d {
      match op
      case Apply(i) => ApplyKeepsSound(d, i, known, s);
      case Guard(secs, g) => GuardMoves(d, secs, g, known, s);
      case Start(now, later, f) => StartMoves(d, now, later, f, s);
      case _ =>
    }
  }

  /** No history costs a host its agent: at every point there is a whole binary of a known
      generation, and one guard run whose moves work makes it launchable, provided each update
      started from a binary that was there. */
  lemma {:induction false} AlwaysRecoverable(disks: seq<Disk>, ops: seq<Op>, known: set<Bytes>, j: nat,
                                             secs: nat, g: GuardRunFaults)
    requires History(disks, ops) && j < |disks|
    requires Sound(disks[0], known)
    requires forall i :: 0 <= i < j ==> Proper(disks[i], ops[i], known)
    requires MovesWork(g)
    ensures Sound(disks[j], known)
    ensures var e := After(disks[j], GuardRun(disks[j], secs, g));
            e.Launchable() && e.target.value.bytes in known
  {
    if j > 0 {
      AlwaysRecoverable(disks, ops, known, j - 1, secs, g);
      StepKeepsSound(disks[j - 1], ops[j - 1], disks[j], known);
    }
    GuardRecovers(disks[j], secs, g);
    hide GuardRun;
  }
}
