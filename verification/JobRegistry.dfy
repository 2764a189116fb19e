/**
 The in-flight job registry: worker slots, the map of running jobs, the bounded set of finished
 ones, and the shutdown flag. Each section the code runs under its lock is one function on the
 registry's fields, and one method of the class that holds them.
 */
module JobRegistry {
  import opened Basics

  const MAX_CONCURRENT := 3
  const DONE_CAP := 1024

  type JobId = string
  /** One call of reserve; it stands for the job handle the call registers. */
  type Call = nat

  datatype Refusal = Stopping | AlreadyRunning | AlreadyDone
  datatype Verdict = Go | Refuse(why: Refusal)

  datatype Registry = Registry(
    inflight: map<JobId, Call>, done: set<JobId>, doneOrder: seq<JobId>,
    tokens: nat, stopping: bool, base: nat, cancelled: set<nat>, wg: nat)

  /** The check before a caller waits for a slot. */
  function FirstCheck(r: Registry, id: JobId): (v: Verdict) {
    if r.stopping then Refuse(Stopping)
    else if id in r.inflight then Refuse(AlreadyRunning)
    else Go
  }

  /** The check after it got one. */
  function SecondCheck(r: Registry, id: JobId): (v: Verdict)
    ensures v.Go? <==> !r.stopping && id !in r.inflight && id !in r.done
  {
    if r.stopping then Refuse(Stopping)
    else if id in r.inflight then Refuse(AlreadyRunning)
    else if id in r.done then Refuse(AlreadyDone)
    else Go
  }

  function Register(r: Registry, c: Call, id: JobId): Registry {
    r.(inflight := r.inflight[id := c], wg := r.wg + 1)
  }

  /** Drops the oldest finished ids until the bound holds again. */
  function Evict(r: Registry): (e: Registry)
    decreases |r.doneOrder|
  {
    if |r.doneOrder| <= DONE_CAP then r
    else Evict(r.(done := r.done - {r.doneOrder[0]}, doneOrder := r.doneOrder[1..]))
  }

  function Finish(r: Registry, id: JobId): Registry {
    if id in r.done then r
    else Evict(r.(done := r.done + {id}, doneOrder := r.doneOrder + [id]))
  }

  /** startJobs: arm the registry, with a fresh parent context if the last one is finished. */
  function Arm(r: Registry): Registry {
    if r.stopping || r.base in r.cancelled then r.(base := r.base + 1, stopping := false) else r
  }

  // ---------------------------------------------------------------- the finished set

  ghost function Elements(s: seq<JobId>): set<JobId> {
    set id | id in s
  }

  /** The finished set is exactly the ids in its own order list, each once. */
  ghost predicate DoneSet(r: Registry) {
    && r.done == Elements(r.doneOrder)
    && forall i, j :: 0 <= i < j < |r.doneOrder| ==> r.doneOrder[i] != r.doneOrder[j]
  }

  /** Eviction keeps the newest ids, in order, and nothing else. */
  lemma {:induction false} EvictKeepsNewest(r: Registry)
    requires DoneSet(r)
    ensures var e := Evict(r);
            && DoneSet(e)
            && e == r.(done := Elements(e.doneOrder), doneOrder := LastN(r.doneOrder, DONE_CAP))
    decreases |r.doneOrder|
  {
    if |r.doneOrder| > DONE_CAP {
      var next := r.(done := r.done - {r.doneOrder[0]}, doneOrder := r.doneOrder[1..]);
      assert r.doneOrder == [r.doneOrder[0]] + r.doneOrder[1..];
      assert next.done == Elements(next.doneOrder);
      EvictKeepsNewest(next);
    }
  }

  lemma FinishKeepsNewest(r: Registry, id: JobId)
    requires DoneSet(r) && |r.doneOrder| <= DONE_CAP
    ensures var f := Finish(r, id);
            && DoneSet(f) && id in f.done
            && f == r.(done := f.done, doneOrder := f.doneOrder)
            && f.doneOrder == if id in r.done then r.doneOrder else LastN(r.doneOrder + [id], DONE_CAP)
  {
    if id !in r.done {
      var grown := r.(done := r.done + {id}, doneOrder := r.doneOrder + [id]);
      assert grown.done == Elements(grown.doneOrder);
      EvictKeepsNewest(grown);
      var f := Finish(r, id);
      assert f.doneOrder[|f.doneOrder| - 1] == id;
    }
  }

  // ---------------------------------------------------------------- the fields and their methods

  class Module {
    var inflight: map<JobId, Call>
    var done: set<JobId>
    var doneOrder: seq<JobId>
    var tokens: nat
    var stopping: bool
    var base: nat
    var cancelled: set<nat>
    var wg: nat

    function Fields(): Registry
      reads this
    {
      Registry(inflight, done, doneOrder, tokens, stopping, base, cancelled, wg)
    }

    constructor ()
      ensures Fields() == Registry(map[], {}, [], 0, false, 0, {}, 0)
    {
      inflight, done, doneOrder := map[], {}, [];
      tokens, stopping, base, cancelled, wg := 0, false, 0, {}, 0;
    }

    /** Afterwards jobs are admitted again, and, as no context later than the current one has been
        cancelled, a caller that waits is not turned away; running and finished jobs are as they were. */
    method StartJobs()
      modifies this
      ensures forall id :: FirstCheck(Fields(), id) == if id in inflight then Refuse(AlreadyRunning) else Go
      ensures (forall b :: b in cancelled ==> b <= old(base)) ==> base !in cancelled
      ensures inflight == old(inflight) && done == old(done) && doneOrder == old(doneOrder) && tokens == old(tokens)
      ensures Fields() == Arm(old(Fields()))
    {
      if stopping || base in cancelled {
        base := base + 1;
        stopping := false;
      }
    }

    /** The first locked section of reserve: refuse, or say which context to wait on. It refuses only what
        the second would, for the same reason; what it lets through, the second could at this moment
        refuse only as done already. */
    method CheckBeforeWait(id: JobId) returns (v: Verdict, waitOn: nat)
      ensures v.Refuse? ==> SecondCheck(Fields(), id) == v
      ensures v.Go? ==> SecondCheck(Fields(), id) in {Go, Refuse(AlreadyDone)}
      ensures v == FirstCheck(Fields(), id) && waitOn == base
    {
      waitOn := base;
      if stopping {
        v := Refuse(Stopping);
      } else if id in inflight {
        v := Refuse(AlreadyRunning);
      } else {
        v := Go;
      }
    }

    /** The second locked section of reserve, entered holding a slot. A refusal for a finished
        job keeps that slot; the other two give it back outside the lock. */
    method CheckAndRegister(c: Call, id: JobId) returns (v: Verdict, giveBack: bool)
      modifies this
      ensures v == SecondCheck(old(Fields()), id)
      ensures giveBack <==> v == Refuse(Stopping) || v == Refuse(AlreadyRunning)
      ensures Fields() == if v.Go? then Register(old(Fields()), c, id) else old(Fields())
    {
      giveBack := false;
      v := Go;
      if stopping {
        v := Refuse(Stopping);
      } else if id in inflight {
        v := Refuse(AlreadyRunning);
      }
      if v.Refuse? {
        giveBack := true;
        return;
      }
      if id in done {
        return Refuse(AlreadyDone), false;
      }
      inflight := inflight[id := c];
      wg := wg + 1;
    }

    /** The three effects of release, in its order. */
    method Release(id: JobId)
      requires tokens > 0 && wg > 0
      modifies this
      ensures Fields() == old(Fields()).(inflight := old(inflight) - {id}, tokens := old(tokens) - 1, wg := old(wg) - 1)
    {
      inflight := inflight - {id};
      tokens := tokens - 1;
      wg := wg - 1;
    }

    method MarkDone(id: JobId)
      modifies this
      ensures Fields() == Finish(old(Fields()), id)
    {
      if id in done {
        return;
      }
      done := done + {id};
      doneOrder := doneOrder + [id];
      ghost var grown := Fields();
      while |doneOrder| > DONE_CAP
        invariant Evict(Fields()) == Evict(grown)
        decreases |doneOrder|
      {
        done := done - {doneOrder[0]};
        doneOrder := doneOrder[1..];
      }
    }

    /** The first locked section of drainJobs. From here every delivery is turned away at both checks;
        what was running still is. */
    method BeginDrain() returns (stop: nat)
      modifies this
      ensures forall id :: FirstCheck(Fields(), id) == SecondCheck(Fields(), id) == Refuse(Stopping)
      ensures inflight == old(inflight) && wg == old(wg)
      ensures Fields() == old(Fields()).(stopping := true) && stop == base
    {
      stopping := true;
      stop := base;
    }
  }
}
