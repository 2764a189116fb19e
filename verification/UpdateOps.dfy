/**
 The operations of agent/internal/update and of the guard script, as the disk states they
 pass through.
 */
module UpdateOps {
  import opened Basics
  import opened Strings
  import opened Denylist
  import opened UpdateDisk

  const CRASH_WINDOW_S := 120
  const CRASH_WINDOW := CRASH_WINDOW_S * SECOND
  const CRASH_LIMIT := 2
  const MAX_STARTS := 16

  // ---------------------------------------------------------------- crash counting

  /** Launches inside the crash window that ends now; launches in the future do not count. */
  function CountStarts(starts: seq<int>, now: int, window: int): (n: nat)
    ensures n <= |starts|
  {
    if starts == [] then 0
    else
      CountStarts(starts[..|starts| - 1], now, window)
      + if starts[|starts| - 1] <= now && now - starts[|starts| - 1] <= window then 1 else 0
  }

  function Max(a: nat, b: nat): nat { if a < b then b else a }

  /** The launch times the guard recorded, in the agent's unit. */
  function ExternalStarts(d: Disk): (r: seq<int>) {
    var kept := LastN(d.starts, MAX_STARTS);
    seq(|kept|, i requires 0 <= i < |kept| => kept[i] * SECOND)
  }

  predicate ShouldRollback(st: State, external: seq<int>, now: int) {
    && st.Pending() && st.backup != "" && st.target != ""
    && !st.rolledBack
    && Max(CountStarts(st.starts, now, CRASH_WINDOW), CountStarts(external, now, CRASH_WINDOW)) > CRASH_LIMIT
  }

  // ---------------------------------------------------------------- swap.go

  /** How copyFile ends: done, not even opened, cut after k bytes, or copied but not chmodded. */
  datatype CopyOutcome = Copied | OpenFailed | CutAt(k: nat, removeFails: bool) | ChmodFailed

  datatype SwapFaults = SwapFaults(
    copy: CopyOutcome, removeOldFails: bool, awayFails: bool,
    inFails: bool, backFails: bool, removeTmpFails: bool)

  /** The staging copy holding each prefix of the artifact in turn, up to n bytes. */
  function CopySteps(d: Disk, bytes: Bytes, n: nat): (r: seq<Disk>)
    requires n <= |bytes|
  {
    seq(n + 1, k requires 0 <= k <= n => d.(staging := Some(Exe(bytes[..k], false))))
  }

  function CopyRun(d: Disk, bytes: Bytes, outcome: CopyOutcome): (r: Run) {
    match outcome
    case OpenFailed => Run([], false)
    case CutAt(k, removeFails) =>
      var written := CopySteps(d, bytes, if k <= |bytes| then k else |bytes|);
      Run(if removeFails then written else written + [d.(staging := None)], false)
    case ChmodFailed => Run(CopySteps(d, bytes, |bytes|), false)
    case Copied => Run(CopySteps(d, bytes, |bytes|) + [d.(staging := Some(Exe(bytes, true)))], true)
  }

  /** Removing a file whose removal may fail and is not checked. */
  function DropStaging(d: Disk, fails: bool): seq<Disk> {
    if fails then [] else [d.(staging := None)]
  }

  /** Move the current binary aside, then the staged one in; undo if the second move fails. */
  function RenameRun(d: Disk, f: SwapFaults): (r: Run)
  {
    if d.target.None? || f.awayFails then
      Run(DropStaging(d, f.removeTmpFails), false)
    else
      var aside := d.(target := None, backup := d.target);
      if aside.staging.None? || f.inFails then
        var undone := if f.backFails then aside else d.(backup := None);
        Run([aside] + (if f.backFails then [] else [undone]) + DropStaging(undone, f.removeTmpFails), false)
      else
        Run([aside, aside.(target := aside.staging, staging := None)], true)
  }

  /** Swap: copy, drop the stale backup, rename away, rename in. */
  function SwapRun(d: Disk, bytes: Bytes, f: SwapFaults): (r: Run) {
    var copy := CopyRun(d, bytes, f.copy);
    if !copy.ok then copy
    else
      var staged := After(d, copy.trace);
      var dropped := if f.removeOldFails then [] else [staged.(backup := None)];
      var cleared := After(staged, dropped);
      var moved := RenameRun(cleared, f);
      Run(copy.trace + dropped + moved.trace, moved.ok)
  }

  datatype RestoreFaults = RestoreFaults(moveFails: bool, chmodFails: bool)

  /** RestoreBackup: move the saved binary back over target, then make it executable. The move
      has happened even when the chmod then makes the call fail. */
  function RestoreRun(d: Disk, f: RestoreFaults): (r: Run) {
    if d.backup.None? || f.moveFails then Run([], false)
    else
      var moved := d.(target := d.backup, backup := None);
      if f.chmodFails then Run([moved], false)
      else Run([moved, moved.(target := Some(moved.target.value.(runnable := true)))], true)
  }

  // ---------------------------------------------------------------- rollback.go

  function ProbationOf(st: State): Probation {
    Probation(st.pending, st.backup, st.finalizing)
  }

  /** Saves a state, then publishes the guard's view of it. */
  function SaveAndPublish(d: Disk, st: State): (r: seq<Disk>) {
    var saved := d.(state := Saved(st));
    [saved, saved.(probation := Some(ProbationOf(st)))]
  }

  /** Removes the guard's two files, in the order the code does. */
  function DropGuardFiles(d: Disk): (r: seq<Disk>) {
    [d.(probation := None), d.(probation := None, starts := [])]
  }

  /** BeginUpdate. The two removals at its start are not checked. */
  function BeginUpdateTrace(d: Disk, version: string, previous: string, target: string, backup: string,
                            now: int, markerStays: bool, startsStay: bool): (r: seq<Disk>)
    ensures |r| == 4
  {
    var d1 := if markerStays then d else d.(marker := false);
    var d2 := if startsStay then d1 else d1.(starts := []);
    var st := NO_STATE.(pending := version, previous := previous, target := target, backup := backup,
                        swappedAt := now, denied := d.Load().denied);
    [d1, d2] + SaveAndPublish(d2, st)
  }

  function BeginFinalizeTrace(d: Disk): (r: seq<Disk>) {
    SaveAndPublish(d, d.Load().(finalizing := true, finalizeErr := ""))
  }

  function FinalizeOutcomeTrace(d: Disk, failure: string): (r: seq<Disk>) {
    var st := d.Load().(finalizing := false, finalizeErr := failure);
    if failure == "" then SaveAndPublish(d, st)
    else
      var saved := d.(state := Saved(st));
      [saved, saved.(probation := None)]
  }

  /** Clear: state, marker, probation, starts. The denylist file is not on the list. */
  function ClearTrace(d: Disk): (r: seq<Disk>) {
    var d1 := d.(state := Missing);
    var d2 := d1.(marker := false);
    [d1, d2] + DropGuardFiles(d2)
  }

  /** markHealthy refuses while a finalizer is outstanding, and never touches the backup. */
  function MarkHealthyRun(d: Disk, unproven: bool): (r: Run) {
    var st := d.Load();
    if st.finalizing then Run([], false)
    else
      var marked := d.(marker := true);
      if !st.Pending() then Run([marked], true)
      else
        var saved := marked.(state := Saved(st.(healthy := true, unproven := unproven, starts := [])));
        Run([marked, saved] + DropGuardFiles(saved), true)
  }

  /** The state a rollback leaves behind. */
  function RolledBack(st: State): State {
    st.(rolledBack := true, healthy := false, pending := "", starts := [],
        denied := Append(st.denied, st.pending))
  }

  function FinishRollback(d: Disk, st: State): (r: seq<Disk>) {
    var saved := d.(state := Saved(st));
    [saved] + DropGuardFiles(saved)
  }

  /** Deny: one append to the denylist file. */
  function DenyTrace(d: Disk, version: string): (r: seq<Disk>) {
    var v := Trim(version);
    if v == "" then [] else [d.(denied := d.denied + Lines(v))]
  }

  /** The guard restored the previous binary before this process existed. */
  predicate GuardRolledBack(d: Disk) {
    var st := d.Load();
    st.Pending() && !st.rolledBack && d.probation.None? && d.IsDenied(st.pending)
  }

  function RecordedState(st: State, now: int): State {
    if st.Pending() then st.(starts := LastN(st.starts + [now], MAX_STARTS)) else st
  }

  function RecordStartTrace(d: Disk, now: int): (r: seq<Disk>) {
    var st := d.Load();
    if st.Pending() then [d.(state := Saved(RecordedState(st, now)))] else []
  }

  /** What CheckAndRollback does once it has decided to roll back. */
  function AgentRollback(d: Disk, st: State, f: RestoreFaults): (r: seq<Disk>) {
    var restore := RestoreRun(d, f);
    var restored := After(d, restore.trace);
    if !restore.ok then
      restore.trace + FinishRollback(restored, st.(rolledBack := true, pending := ""))
    else
      var deny := DenyTrace(restored, st.pending);
      var denied := After(restored, deny);
      restore.trace + deny + FinishRollback(denied, RolledBack(st))
  }

  /** CheckAndRollback, run at every agent start. The clock is read twice. */
  function AgentStart(d: Disk, now: int, later: int, f: RestoreFaults): (r: seq<Disk>) {
    if GuardRolledBack(d) then FinishRollback(d, RolledBack(d.Load()))
    else
      var rec := RecordStartTrace(d, now);
      var d1 := After(d, rec);
      var st := RecordedState(d.Load(), now);
      if ShouldRollback(st, ExternalStarts(d1), later) then rec + AgentRollback(d1, st, f) else rec
  }

  /** A disk an agent start passes through belongs to its reconciliation, its record, or its rollback. */
  lemma StartCases(d: Disk, now: int, later: int, f: RestoreFaults, s: Disk, d1: Disk, st: State)
    requires s in AgentStart(d, now, later, f)
    requires d1 == After(d, RecordStartTrace(d, now)) && st == RecordedState(d.Load(), now)
    ensures (GuardRolledBack(d) && s in FinishRollback(d, RolledBack(d.Load())))
            || s in RecordStartTrace(d, now) || s in AgentRollback(d1, st, f)
  {
    hide GuardRolledBack, FinishRollback, RolledBack, RecordStartTrace, RecordedState, AgentRollback, ShouldRollback;
  }

  // ---------------------------------------------------------------- guard.go

  datatype GuardFaults = GuardFaults(
    moveFails: bool, chmodFails: bool, denyFails: bool, keepProbation: bool, keepStarts: bool)

  /** probation_field version: the first line, or nothing. */
  function GuardVersion(d: Disk): string {
    if d.probation.None? then "" else Lines(d.probation.value.version)[0]
  }

  /** The guard's restore(). Only a failed move makes it fail. */
  function GuardRestore(d: Disk, f: GuardFaults): (r: Run) {
    if d.backup.None? || f.moveFails then Run([], false)
    else
      var d1 := d.(target := d.backup, backup := None);
      var d2 := if f.chmodFails then d1 else d1.(target := Some(d1.target.value.(runnable := true)));
      var version := GuardVersion(d2);
      var d3 := if version == "" || f.denyFails then d2 else d2.(denied := d2.denied + [version]);
      var d4 := if f.keepProbation then d3 else d3.(probation := None);
      var d5 := if f.keepStarts then d4 else d4.(starts := []);
      Run([d1, d2, d3, d4, d5], true)
  }

  /** The guard counts this launch: append, keep the last sixteen. */
  function GuardCount(d: Disk, now: nat, appendFails: bool, tailFails: bool): (r: seq<Disk>) {
    var d1 := if appendFails then d else d.(starts := d.starts + [now]);
    var d2 := if tailFails then d1 else d1.(starts := LastN(d1.starts, MAX_STARTS));
    [d1, d2]
  }

  predicate GuardWatches(d: Disk, now: nat) {
    d.probation.Some? && !d.probation.value.finalizing && now != 0
  }

  datatype GuardRunFaults = GuardRunFaults(
    missing: GuardFaults, looping: GuardFaults, appendFails: bool, tailFails: bool)

  /** The guard's first check: a target that is gone or cannot be executed. */
  function GuardFirst(d: Disk, f: GuardRunFaults): (r: seq<Disk>) {
    if d.Launchable() then [] else GuardRestore(d, f.missing).trace
  }

  /** One run of the guard, at a clock in whole seconds; 0 stands for a clock it could not read. */
  function GuardRun(d: Disk, now: nat, f: GuardRunFaults): (r: seq<Disk>) {
    var first := GuardFirst(d, f);
    var d1 := After(d, first);
    if !GuardWatches(d1, now) then first
    else
      var count := GuardCount(d1, now, f.appendFails, f.tailFails);
      var d2 := After(d1, count);
      if CountStarts(d2.starts, now, CRASH_WINDOW_S) > CRASH_LIMIT then
        first + count + GuardRestore(d2, f.looping).trace
      else first + count
  }

  /** A disk the guard passes through belongs to its first restore, its count, or its second restore. */
  lemma GuardCases(d: Disk, now: nat, f: GuardRunFaults, s: Disk, d1: Disk, d2: Disk)
    requires s in GuardRun(d, now, f)
    requires d1 == After(d, GuardFirst(d, f)) && d2 == After(d1, GuardCount(d1, now, f.appendFails, f.tailFails))
    ensures s in GuardFirst(d, f) || s in GuardCount(d1, now, f.appendFails, f.tailFails)
            || s in GuardRestore(d2, f.looping).trace
  {
    hide GuardFirst, GuardCount, GuardRestore, GuardWatches, CountStarts;
  }

  // ---------------------------------------------------------------- update.go

  /** An update instruction, with what the download and the checks on it would find. */
  datatype Request = Request(
    version: string, current: string, wellFormed: bool, force: bool,
    artifact: Option<Bytes>, verified: bool)

  /** Where Apply stops before it touches anything. */
  datatype Refusal = BadRequest | AlreadyCurrent | VersionDenied | FinalizePending | NotDownloaded | NotVerified

  function Refuse(d: Disk, req: Request): (r: Option<Refusal>) {
    if req.version == "" || !req.wellFormed then Some(BadRequest)
    else if req.current != "" && req.version == req.current then Some(AlreadyCurrent)
    else if !req.force && d.IsDenied(req.version) then Some(VersionDenied)
    else if d.Load().finalizing && !req.force then Some(FinalizePending)
    else if req.artifact.None? then Some(NotDownloaded)
    else if !req.verified then Some(NotVerified)
    else None
  }

  datatype ApplyInput = ApplyInput(
    req: Request, targetPath: string, now: int, markerStays: bool, startsStay: bool, swap: SwapFaults)

  function BackupPath(target: string): string { target + ".old" }

  function BeginApply(d: Disk, i: ApplyInput): (r: seq<Disk>)
    ensures |r| == 4
  {
    BeginUpdateTrace(d, i.req.version, i.req.current, i.targetPath, BackupPath(i.targetPath),
                     i.now, i.markerStays, i.startsStay)
  }

  /** Apply on a host that swaps in place: refuse, or record, swap, and forget on failure. */
  function ApplyRun(d: Disk, i: ApplyInput): (r: Run) {
    if Refuse(d, i.req).Some? then Run([], false)
    else
      var begin := BeginApply(d, i);
      var d1 := After(d, begin);
      var swap := SwapRun(d1, i.req.artifact.value, i.swap);
      if swap.ok then Run(begin + swap.trace, true)
      else Run(begin + swap.trace + ClearTrace(After(d1, swap.trace)), false)
  }

  /** A disk Apply passes through belongs to its record, to its swap, or to its clean-up. */
  lemma ApplyCases(d: Disk, i: ApplyInput, s: Disk, d1: Disk, swap: Run)
    requires Refuse(d, i.req).None? && s in ApplyRun(d, i).trace
    requires d1 == After(d, BeginApply(d, i)) && swap == SwapRun(d1, i.req.artifact.value, i.swap)
    ensures d1 in BeginApply(d, i)
    ensures s in BeginApply(d, i) || s in swap.trace
            || (s in ClearTrace(After(d1, swap.trace))
                && (After(d1, swap.trace) == d1 || After(d1, swap.trace) in swap.trace))
  {
    hide BeginApply, SwapRun, ClearTrace, Refuse;
  }
}
