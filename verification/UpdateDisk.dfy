/**
 What a self-update leaves on disk. Two programs share these files: the agent (Go) and the
 guard (a /bin/sh script the service manager runs before the agent). Either can die between
 any two file steps, so every operation is described by the sequence of disk states it passes
 through. A crash, or an error that makes the code return early, leaves one of those states.
 */
module UpdateDisk {
  import opened Basics
  import opened Denylist

  /** A binary: its contents, and whether the mode lets it be executed. */
  datatype Exe = Exe(bytes: Bytes, runnable: bool)

  /** The JSON record of an in-flight update. Times are nanoseconds. */
  datatype State = State(
    pending: string, previous: string, target: string, backup: string,
    swappedAt: int, starts: seq<int>, healthy: bool, unproven: bool, rolledBack: bool,
    denied: seq<string>, finalizing: bool, finalizeErr: string)
  {
    predicate Pending() { pending != "" && !healthy }
  }

  const NO_STATE := State("", "", "", "", 0, [], false, false, false, [], false, "")

  /** The state file: absent, unparseable, or holding a record. */
  datatype StateFile = Missing | Corrupt | Saved(st: State)

  /** The plain text view of the same update that the guard reads. */
  datatype Probation = Probation(version: string, backup: string, finalizing: bool)

  /** The five files of the state directory and the three binaries beside each other: the
      agent's own path, the saved previous generation, and the copy being staged. */
  datatype Disk = Disk(
    target: Option<Exe>, backup: Option<Exe>, staging: Option<Exe>,
    state: StateFile, marker: bool, probation: Option<Probation>,
    starts: seq<nat>, denied: seq<string>)
  {
    /** Tracker.Load: a missing or corrupt file means no update is in flight. */
    function Load(): (st: State) {
      match state
      case Saved(st) => st
      case _ => NO_STATE
    }

    predicate Launchable() {
      target.Some? && target.value.runnable
    }

    /** Every version this host has rolled back, as Tracker.Denied reports it. */
    function DeniedList(): (r: seq<string>) {
      Merged(Load().denied, denied)
    }

    predicate IsDenied(version: string) {
      version != "" && version in DeniedList()
    }
  }

  /** The disk states an operation passes through, one per file step, and whether it succeeded. */
  datatype Run = Run(trace: seq<Disk>, ok: bool)

  /** The disk once these steps have been taken. */
  function After(d: Disk, trace: seq<Disk>): (r: Disk)
    ensures trace == [] ==> r == d
  {
    if trace == [] then d else trace[|trace| - 1]
  }

  /** d2 is where an operation with this trace can leave d1, crashing anywhere or finishing. */
  predicate Leaves(d1: Disk, trace: seq<Disk>, d2: Disk) {
    d2 == d1 || d2 in trace
  }

  lemma AfterConcat(d: Disk, a: seq<Disk>, b: seq<Disk>)
    ensures After(d, a + b) == After(After(d, a), b)
  {
  }
}
