/**
 The outcome of one install call and the gate that admits one install at a time.
 */
module InstallResult {
  datatype Result = Result(installed: seq<string>, failed: map<string, string>, reboot: bool)

  const EMPTY := Result([], map[], false)

  /** The first failure recorded for an id stays. */
  function Fail(r: Result, id: string, why: string): (t: Result)
    ensures t.installed == r.installed && t.failed.Keys == r.failed.Keys + {id}
    ensures forall k :: k in r.failed ==> t.failed[k] == r.failed[k]
    ensures id !in r.failed ==> t.failed[id] == why
  {
    if id in r.failed then r else r.(failed := r.failed[id := why])
  }

  const UNKNOWN: string :=
    "install outcome unknown: the agent stopped waiting (cancelled or past its deadline) "
    + "while the install was still running on the update thread; it may still complete"

  /** Every requested update, and nothing else, with an unknown outcome. */
  function Abandoned(ids: seq<string>): (r: Result)
    ensures r.installed == [] && !r.reboot && forall id :: id in r.failed <==> id in ids
    ensures forall id :: id in r.failed ==> r.failed[id] == UNKNOWN
  {
    Result([], map id | id in ids :: UNKNOWN, false)
  }

  method AbandonedInstallResult(ids: seq<string>) returns (r: Result)
    ensures r == Abandoned(ids)
  {
    r := EMPTY;
    for i := 0 to |ids|
      invariant r == Abandoned(ids[..i])
    {
      assert ids[..i + 1] == ids[..i] + [ids[i]];
      r := Fail(r, ids[i], UNKNOWN);
    }
    assert ids[..|ids|] == ids;
  }

  /** installGate: a flag taken by compare-and-swap and put back by a plain store. */
  class Gate {
    var held: bool

    constructor ()
      ensures !held
    {
      held := false;
    }

    method Acquire() returns (ok: bool)
      modifies this
      ensures held && ok == !old(held)
    {
      ok := !held;
      held := true;
    }

    method Release()
      modifies this
      ensures !held
    {
      held := false;
    }
  }
}
