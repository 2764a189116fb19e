/**
 Every interleaving of job deliveries, slot waits, finishing jobs and shutdowns over one registry.
 Each locked section is one step; so is each slot taken or given back outside the lock.
 */
module JobRuns {
  import opened Basics
  import opened JobRegistry

  /** Where one call of reserve, and the job it started, has got to. */
  datatype Phase =
    | Waiting(base: nat)     // past the first check, blocked for a slot
    | Holding                // has a slot, about to check again
    | Refunding(why: Refusal) // refused with a slot it is about to give back
    | Refused(why: Refusal)
    | Running                // registered
    | Finished               // marked done, not yet released
    | Unregistered           // out of the map, slot not yet given back
    | Returned               // slot given back, wait group not yet told
    | Released

  /** A call delivered through handleJob marks its id done before releasing; the other callers do not. */
  datatype Caller = Caller(id: JobId, marks: bool, phase: Phase)

  datatype Shutdown = Serving | Draining | Cancelling | Drained

  /** The registry, its callers, and what an observer has seen: which ids started, in order, which
      were newly marked done, in order, and which were reported interrupted. */
  datatype World = World(
    r: Registry, callers: map<Call, Caller>, shutdown: Shutdown,
    starts: seq<JobId>, finishes: seq<JobId>, reported: set<JobId>)

  datatype Step =
    | Arrive(c: Call, id: JobId, marks: bool)
    | TakeSlot(c: Call)
    | GiveUp(c: Call)
    | Commit(c: Call)
    | GiveBack(c: Call)
    | MarkDone(c: Call)
    | Unregister(c: Call)
    | ReturnSlot(c: Call)
    | LeaveGroup(c: Call)
    | StartServing
    | BeginDrain
    | DrainEmpty
    | CancelAll
    | ReportRest

  predicate In(w: World, c: Call, p: Phase) {
    c in w.callers && w.callers[c].phase == p
  }

  predicate Enabled(w: World, s: Step) {
    match s
    case Arrive(c, _, _) => c !in w.callers
    case TakeSlot(c) => c in w.callers && w.callers[c].phase.Waiting? && w.r.tokens < MAX_CONCURRENT
    case GiveUp(c) => c in w.callers && w.callers[c].phase.Waiting? && w.callers[c].phase.base in w.r.cancelled
    case Commit(c) => In(w, c, Holding)
    case GiveBack(c) => c in w.callers && w.callers[c].phase.Refunding? && w.r.tokens > 0
    case MarkDone(c) => In(w, c, Running) && w.callers[c].marks
    case Unregister(c) => In(w, c, Finished) || (In(w, c, Running) && !w.callers[c].marks)
    case ReturnSlot(c) => In(w, c, Unregistered) && w.r.tokens > 0
    case LeaveGroup(c) => In(w, c, Returned) && w.r.wg > 0
    case StartServing => w.shutdown == Drained
    case BeginDrain => w.shutdown == Serving
    case DrainEmpty => (w.shutdown == Draining || w.shutdown == Cancelling) && w.r.wg == 0
    case CancelAll => w.shutdown == Draining
    case ReportRest => w.shutdown == Cancelling
  }

  function Move(w: World, c: Call, p: Phase): World
    requires c in w.callers
  {
    w.(callers := w.callers[c := w.callers[c].(phase := p)])
  }

  /** The second check. `refund` says whether a refused redelivery of a finished job gives its slot
      back; the code as written does not. */
  function CommitStep(w: World, c: Call, refund: bool): World
    requires c in w.callers
  {
    var id := w.callers[c].id;
    match SecondCheck(w.r, id)
    case Go => Move(w, c, Running).(r := Register(w.r, c, id), starts := w.starts + [id])
    case Refuse(AlreadyDone) => Move(w, c, if refund then Refunding(AlreadyDone) else Refused(AlreadyDone))
    case Refuse(why) => Move(w, c, Refunding(why))
  }

  function Next(w: World, s: Step, refund: bool): World
    requires Enabled(w, s)
  {
    match s
    case Arrive(c, id, marks) =>
      var v := FirstCheck(w.r, id);
      w.(callers := w.callers[c := Caller(id, marks, if v.Go? then Waiting(w.r.base) else Refused(v.why))])
    case TakeSlot(c) => Move(w, c, Holding).(r := w.r.(tokens := w.r.tokens + 1))
    case GiveUp(c) => Move(w, c, Refused(Stopping))
    case Commit(c) => CommitStep(w, c, refund)
    case GiveBack(c) => Move(w, c, Refused(w.callers[c].phase.why)).(r := w.r.(tokens := w.r.tokens - 1))
    case MarkDone(c) =>
      var id := w.callers[c].id;
      Move(w, c, Finished).(r := Finish(w.r, id), finishes := if id in w.r.done then w.finishes else w.finishes + [id])
    case Unregister(c) => Move(w, c, Unregistered).(r := w.r.(inflight := w.r.inflight - {w.callers[c].id}))
    case ReturnSlot(c) => Move(w, c, Returned).(r := w.r.(tokens := w.r.tokens - 1))
    case LeaveGroup(c) => Move(w, c, Released).(r := w.r.(wg := w.r.wg - 1))
    case StartServing => w.(r := Arm(w.r), shutdown := Serving)
    case BeginDrain => w.(r := w.r.(stopping := true), shutdown := Draining)
    case DrainEmpty => w.(shutdown := Drained)
    case CancelAll => w.(r := w.r.(cancelled := w.r.cancelled + {w.r.base}), shutdown := Cancelling)
    case ReportRest => w.(reported := w.reported + w.r.inflight.Keys, shutdown := Drained)
  }

  const INITIAL := World(Registry(map[], {}, [], 0, false, 0, {}, 0), map[], Serving, [], [], {})

  predicate Run(ws: seq<World>, steps: seq<Step>, refund: bool) {
    && |ws| == |steps| + 1
    && ws[0] == INITIAL
    && forall i :: 0 <= i < |steps| ==> Enabled(ws[i], steps[i]) && ws[i + 1] == Next(ws[i], steps[i], refund)
  }

  // ---------------------------------------------------------------- what every step keeps

  predicate HoldsSlot(p: Phase) {
    p.Holding? || p.Refunding? || p.Running? || p.Finished? || p.Unregistered?
  }

  predicate Registered(p: Phase) { p.Running? || p.Finished? }

  predicate InGroup(p: Phase) { p.Running? || p.Finished? || p.Unregistered? || p.Returned? }

  ghost function Holders(w: World): set<Call> { set c | c in w.callers && HoldsSlot(w.callers[c].phase) }
  ghost function Group(w: World): set<Call> { set c | c in w.callers && InGroup(w.callers[c].phase) }
  /** The calls that were refused as already done: each kept a slot for good. */
  ghost function Leaks(w: World): set<Call> { set c | c in w.callers && w.callers[c].phase == Refused(AlreadyDone) }

  /** Slots in use: the jobs and callers that hold one, and those lost to errJobDone returns. */
  ghost predicate SlotsAccounted(w: World, refund: bool) {
    && w.r.tokens == |Holders(w)| + (if refund then 0 else |Leaks(w)|)
    && w.r.tokens <= MAX_CONCURRENT
    && w.r.wg == |Group(w)|
    && (!refund ==> forall c :: c in w.callers ==> w.callers[c].phase != Refunding(AlreadyDone))
  }

  /** The map holds exactly the registered calls, one per id. */
  ghost predicate MapMatches(w: World) {
    && (forall id :: id in w.r.inflight ==>
          var c := w.r.inflight[id];
          c in w.callers && w.callers[c].id == id && Registered(w.callers[c].phase))
    && (forall c :: c in w.callers && Registered(w.callers[c].phase) ==>
          w.callers[c].id in w.r.inflight && w.r.inflight[w.callers[c].id] == c)
  }

  /** The finished set is the newest 1024 of all finishes, and no id finishes twice within any 1024. */
  ghost predicate DoneMatches(w: World) {
    && DoneSet(w.r)
    && w.r.doneOrder == LastN(w.finishes, DONE_CAP)
    && forall i, j :: 0 <= i < j < |w.finishes| && j - i <= DONE_CAP ==> w.finishes[i] != w.finishes[j]
  }

  /** Every delivery of this id so far came through handleJob. */
  predicate OnlyHandled(w: World, id: JobId) {
    forall c :: c in w.callers && w.callers[c].id == id ==> w.callers[c].marks
  }

  /** A started id is running, or has been marked done. */
  ghost predicate StartedAccounted(w: World) {
    forall id :: id in w.starts && OnlyHandled(w, id) ==> id in w.r.inflight || id in w.finishes
  }

  /** At least 1024 finishes came after the one at k, all of distinct other ids. */
  ghost predicate OverrunAt(finishes: seq<JobId>, k: nat, id: JobId) {
    && k + DONE_CAP < |finishes| && finishes[k] == id
    && (forall j :: k < j <= k + DONE_CAP ==> finishes[j] != id)
    && (forall i, j :: k < i < j <= k + DONE_CAP ==> finishes[i] != finishes[j])
  }

  ghost predicate Overrun(w: World, id: JobId) {
    exists k: nat :: OverrunAt(w.finishes, k, id)
  }

  ghost predicate StartedOnce(w: World) {
    forall i, j :: 0 <= i < j < |w.starts| && w.starts[i] == w.starts[j] && OnlyHandled(w, w.starts[i]) ==>
      Overrun(w, w.starts[i])
  }

  /** While drained, every job still in the map has been reported; nothing is admitted after stopping. */
  ghost predicate DrainAccounted(w: World) {
    && (w.shutdown != Serving ==> w.r.stopping)
    && (w.shutdown == Drained ==> forall id :: id in w.r.inflight ==> id in w.reported)
  }

  ghost predicate Inv(w: World, refund: bool) {
    && SlotsAccounted(w, refund) && MapMatches(w) && DoneMatches(w)
    && FinishedAreDone(w) && StartedAccounted(w) && StartedOnce(w) && DrainAccounted(w)
  }

  // ---------------------------------------------------------------- slots

  /** The slots a phase accounts for: the one it holds, or the one it lost. */
  function Weight(p: Phase, refund: bool): nat {
    One(HoldsSlot(p)) + One(!refund && p == Refused(AlreadyDone))
  }

  /** One caller changes phase, and the counters change by exactly what the two phases weigh. */
  lemma MoveKeepsSlots(w: World, v: World, c: Call, refund: bool)
    requires SlotsAccounted(w, refund)
    requires c in w.callers && c in v.callers && v.callers == w.callers[c := v.callers[c]]
    requires v.r.tokens == w.r.tokens + Weight(v.callers[c].phase, refund) - Weight(w.callers[c].phase, refund)
    requires v.r.tokens <= MAX_CONCURRENT
    requires v.r.wg == w.r.wg + One(InGroup(v.callers[c].phase)) - One(InGroup(w.callers[c].phase))
    requires !refund ==> v.callers[c].phase != Refunding(AlreadyDone)
    ensures SlotsAccounted(v, refund)
  {
    MoveChangesSets(w, v, c);
    hide Holders, Group, Leaks, HoldsSlot, InGroup;
  }

  lemma MoveChangesSets(w: World, v: World, c: Call)
    requires c in w.callers && c in v.callers && v.callers == w.callers[c := v.callers[c]]
    ensures |Holders(v)| == |Holders(w)| + One(HoldsSlot(v.callers[c].phase)) - One(HoldsSlot(w.callers[c].phase))
    ensures |Group(v)| == |Group(w)| + One(InGroup(v.callers[c].phase)) - One(InGroup(w.callers[c].phase))
    ensures |Leaks(v)| == |Leaks(w)| + One(v.callers[c].phase == Refused(AlreadyDone))
                          - One(w.callers[c].phase == Refused(AlreadyDone))
  {
    ToggleCard(Holders(w), Holders(v), c);
    ToggleCard(Group(w), Group(v), c);
    ToggleCard(Leaks(w), Leaks(v), c);
  }

  lemma ToggleCard(a: set<Call>, b: set<Call>, c: Call)
    requires a - {c} == b - {c}
    ensures |b| == |a| + One(c in b) - One(c in a)
  {
    assert a == if c in a then (a - {c}) + {c} else a - {c};
    assert b == if c in b then (b - {c}) + {c} else b - {c};
  }

  lemma ArriveKeepsSlots(w: World, v: World, c: Call, refund: bool)
    requires SlotsAccounted(w, refund)
    requires c !in w.callers && c in v.callers && v.callers == w.callers[c := v.callers[c]] && v.r == w.r
    requires v.callers[c].phase.Waiting? || (v.callers[c].phase.Refused? && v.callers[c].phase.why != AlreadyDone)
    ensures SlotsAccounted(v, refund)
  {
    assert Holders(v) == Holders(w) && Group(v) == Group(w) && Leaks(v) == Leaks(w);
  }

  lemma ReserveKeepsSlots(w: World, s: Step, refund: bool, v: World)
    requires SlotsAccounted(w, refund) && Enabled(w, s) && v == Next(w, s, refund)
    requires s.Arrive? || s.TakeSlot? || s.GiveUp? || s.Commit? || s.GiveBack?
    ensures SlotsAccounted(v, refund)
  {
    SlotBounds(w, refund);
    hide SlotsAccounted;
    if s.Arrive? {
      ArriveKeepsSlots(w, v, s.c, refund);
    } else {
      MoveKeepsSlots(w, v, s.c, refund);
    }
  }

  lemma ReleaseKeepsSlots(w: World, s: Step, refund: bool, v: World)
    requires SlotsAccounted(w, refund) && Enabled(w, s) && v == Next(w, s, refund)
    requires s.MarkDone? || s.Unregister? || s.ReturnSlot? || s.LeaveGroup?
    ensures SlotsAccounted(v, refund)
  {
    SlotBounds(w, refund);
    hide SlotsAccounted, Finish;
    if s.MarkDone? {
      FinishKeepsCounts(w.r, w.callers[s.c].id);
    }
    MoveKeepsSlots(w, v, s.c, refund);
  }

  /** Slot accounting survives every step. With the slot given back there is no leak term at all. */
  lemma StepKeepsSlots(w: World, s: Step, refund: bool)
    requires SlotsAccounted(w, refund) && Enabled(w, s)
    ensures SlotsAccounted(Next(w, s, refund), refund)
  {
    var v := Next(w, s, refund);
    hide SlotsAccounted;
    if s.Arrive? || s.TakeSlot? || s.GiveUp? || s.Commit? || s.GiveBack? {
      ReserveKeepsSlots(w, s, refund, v);
    } else if s.MarkDone? || s.Unregister? || s.ReturnSlot? || s.LeaveGroup? {
      ReleaseKeepsSlots(w, s, refund, v);
    } else {
      SameSlots(w, v, refund);
    }
  }

  lemma SlotBounds(w: World, refund: bool)
    requires SlotsAccounted(w, refund)
    ensures w.r.tokens <= MAX_CONCURRENT
    ensures !refund ==> forall c :: c in w.callers ==> w.callers[c].phase != Refunding(AlreadyDone)
  {
  }

  lemma SameSlots(w: World, v: World, refund: bool)
    requires SlotsAccounted(w, refund)
    requires v.callers == w.callers && v.r.tokens == w.r.tokens && v.r.wg == w.r.wg
    ensures SlotsAccounted(v, refund)
  {
    assert Holders(v) == Holders(w) && Group(v) == Group(w) && Leaks(v) == Leaks(w);
  }

  lemma {:induction false} EvictKeepsCounts(r: Registry)
    ensures Evict(r) == r.(done := Evict(r).done, doneOrder := Evict(r).doneOrder)
    decreases |r.doneOrder|
  {
    if |r.doneOrder| > DONE_CAP {
      EvictKeepsCounts(r.(done := r.done - {r.doneOrder[0]}, doneOrder := r.doneOrder[1..]));
    }
  }

  lemma FinishKeepsCounts(r: Registry, id: JobId)
    ensures Finish(r, id) == r.(done := Finish(r, id).done, doneOrder := Finish(r, id).doneOrder)
  {
    EvictKeepsCounts(r.(done := r.done + {id}, doneOrder := r.doneOrder + [id]));
  }

  // ---------------------------------------------------------------- the map and the finished set

  /** A caller appears or moves without its registration changing. */
  lemma SameRegistration(w: World, v: World, c: Call)
    requires MapMatches(w) && v.r.inflight == w.r.inflight
    requires c in v.callers && v.callers == w.callers[c := v.callers[c]]
    requires if c in w.callers
               then v.callers[c].id == w.callers[c].id
                    && Registered(v.callers[c].phase) == Registered(w.callers[c].phase)
               else !Registered(v.callers[c].phase)
    ensures MapMatches(v)
  {
  }

  lemma CommitKeepsMap(w: World, c: Call, refund: bool)
    requires MapMatches(w) && In(w, c, Holding)
    ensures MapMatches(CommitStep(w, c, refund))
  {
  }

  lemma UnregisterKeepsMap(w: World, c: Call, refund: bool)
    requires MapMatches(w) && Enabled(w, Unregister(c))
    ensures MapMatches(Next(w, Unregister(c), refund))
  {
  }

  lemma StepKeepsMap(w: World, s: Step, refund: bool)
    requires MapMatches(w) && Enabled(w, s)
    ensures MapMatches(Next(w, s, refund))
  {
    var v := Next(w, s, refund);
    hide Finish;
    if s.MarkDone? {
      FinishKeepsCounts(w.r, w.callers[s.c].id);
    }
    if s.Commit? {
      CommitKeepsMap(w, s.c, refund);
    } else if s.Unregister? {
      UnregisterKeepsMap(w, s.c, refund);
    } else if s.StartServing? || s.BeginDrain? || s.DrainEmpty? || s.CancelAll? || s.ReportRest? {
      assert v.callers == w.callers && v.r.inflight == w.r.inflight;
    } else {
      hide MapMatches;
      SameRegistration(w, v, s.c);
    }
  }

  lemma OthersKeepDone(w: World, s: Step, refund: bool)
    requires Enabled(w, s) && !s.MarkDone?
    ensures var v := Next(w, s, refund);
            v.r.done == w.r.done && v.r.doneOrder == w.r.doneOrder && v.finishes == w.finishes
  {
  }

  lemma StepKeepsDone(w: World, s: Step, refund: bool)
    requires DoneMatches(w) && Enabled(w, s)
    ensures DoneMatches(Next(w, s, refund))
  {
    if s.MarkDone? {
      MarkDoneKeepsDone(w, s.c, refund);
    } else {
      OthersKeepDone(w, s, refund);
      hide Next;
    }
  }

  lemma MarkDoneKeepsDone(w: World, c: Call, refund: bool)
    requires DoneMatches(w) && Enabled(w, MarkDone(c))
    ensures DoneMatches(Next(w, MarkDone(c), refund))
  {
    hide Evict;
    var id := w.callers[c].id;
    FinishKeepsNewest(w.r, id);
    if id !in w.r.done {
      LastNSnoc(w.finishes, id, DONE_CAP);
      FreshAmongNewest(w, id);
    }
  }

  lemma FreshAmongNewest(w: World, id: JobId)
    requires DoneMatches(w) && id !in w.r.done
    ensures var all := w.finishes + [id];
            forall i, j :: 0 <= i < j < |all| && j - i <= DONE_CAP ==> all[i] != all[j]
  {
    var all := w.finishes + [id];
    forall i, j | 0 <= i < j < |all| && j - i <= DONE_CAP ensures all[i] != all[j] {
      if j == |w.finishes| {
        var cut := |w.finishes| - |w.r.doneOrder|;
        assert all[i] == w.r.doneOrder[i - cut];
        assert all[i] in w.r.done;
      }
    }
  }

  // ---------------------------------------------------------------- at most once

  lemma OnlyHandledBefore(w: World, s: Step, refund: bool, id: JobId)
    requires Enabled(w, s) && OnlyHandled(Next(w, s, refund), id)
    ensures OnlyHandled(w, id)
  {
    var v := Next(w, s, refund);
    forall c | c in w.callers && w.callers[c].id == id ensures w.callers[c].marks {
      assert c in v.callers && v.callers[c].id == id && v.callers[c].marks == w.callers[c].marks;
    }
  }

  lemma StepKeepsStarted(w: World, s: Step, refund: bool)
    requires StartedAccounted(w) && MapMatches(w) && DoneMatches(w) && Enabled(w, s)
    requires FinishedAreDone(w)
    ensures StartedAccounted(Next(w, s, refund))
  {
    hide Finish, DoneMatches, MapMatches;
    var v := Next(w, s, refund);
    forall id | id in v.starts && OnlyHandled(v, id) ensures id in v.r.inflight || id in v.finishes {
      OnlyHandledBefore(w, s, refund, id);
      if s.MarkDone? {
        FinishKeepsCounts(w.r, w.callers[s.c].id);
      }
      if s.Unregister? && w.callers[s.c].id == id {
        assert In(w, s.c, Finished);
      }
    }
  }

  lemma StepKeepsFinished(w: World, s: Step, refund: bool)
    requires DoneMatches(w) && FinishedAreDone(w) && Enabled(w, s)
    ensures FinishedAreDone(Next(w, s, refund))
  {
    var v := Next(w, s, refund);
    LogsGrow(w, s, refund);
    if s.MarkDone? && w.callers[s.c].id in w.r.done {
      assert w.callers[s.c].id in w.r.doneOrder;
    }
    assert s.MarkDone? ==> w.callers[s.c].id in v.finishes;
    forall c | c in v.callers && v.callers[c].phase == Finished ensures v.callers[c].id in v.finishes {
      OnlyMarkDoneFinishes(w, s, refund, c);
    }
  }

  lemma OnlyMarkDoneFinishes(w: World, s: Step, refund: bool, c: Call)
    requires Enabled(w, s) && In(Next(w, s, refund), c, Finished)
    ensures In(w, c, Finished) || s == MarkDone(c)
    ensures c in w.callers && Next(w, s, refund).callers[c].id == w.callers[c].id
  {
    hide Finish;
  }

  /** A call past markDone has its id among the finishes. */
  ghost predicate FinishedAreDone(w: World) {
    forall c :: c in w.callers && w.callers[c].phase == Finished ==> w.callers[c].id in w.finishes
  }

  /** An id that finished but is no longer in the bounded set was pushed out by 1024 others. */
  lemma ForgottenMeansOverrun(w: World, id: JobId)
    requires DoneMatches(w) && id in w.finishes && id !in w.r.done
    ensures Overrun(w, id)
  {
    var k :| 0 <= k < |w.finishes| && w.finishes[k] == id;
    var cut := |w.finishes| - |w.r.doneOrder|;
    forall i | cut <= i < |w.finishes| ensures w.finishes[i] in w.r.done {
      assert w.r.doneOrder[i - cut] == w.finishes[i];
    }
    assert k < cut;
    assert OverrunAt(w.finishes, k, id);
  }

  lemma OverrunStays(w: World, v: World, id: JobId)
    requires Overrun(w, id) && w.finishes <= v.finishes
    ensures Overrun(v, id)
  {
    var k: nat :| OverrunAt(w.finishes, k, id);
    assert forall j :: 0 <= j < |w.finishes| ==> v.finishes[j] == w.finishes[j];
    assert OverrunAt(v.finishes, k, id);
  }

  lemma LogsGrow(w: World, s: Step, refund: bool)
    requires Enabled(w, s)
    ensures var v := Next(w, s, refund);
            && w.finishes <= v.finishes
            && v.starts == (if s.Commit? && SecondCheck(w.r, w.callers[s.c].id).Go?
                            then w.starts + [w.callers[s.c].id] else w.starts)
  {
    hide Finish;
  }

  lemma StepKeepsOnce(w: World, s: Step, refund: bool)
    requires StartedOnce(w) && StartedAccounted(w) && DoneMatches(w) && Enabled(w, s)
    ensures StartedOnce(Next(w, s, refund))
  {
    var v := Next(w, s, refund);
    LogsGrow(w, s, refund);
    forall i, j | 0 <= i < j < |v.starts| && v.starts[i] == v.starts[j] && OnlyHandled(v, v.starts[i])
      ensures Overrun(v, v.starts[i])
    {
      var id := v.starts[i];
      OnlyHandledBefore(w, s, refund, id);
      hide Next, OnlyHandled, DoneMatches, Overrun;
      assert w.starts[i] == id;
      if j == |w.starts| {
        assert id in w.starts && id !in w.r.inflight;
        ForgottenMeansOverrun(w, id);
      }
      OverrunStays(w, v, id);
    }
  }

  // ---------------------------------------------------------------- shutdown

  /** Once stopping is set nothing new is registered: the map can only shrink until the next start. */
  lemma StoppingOnlyShrinks(w: World, s: Step, refund: bool)
    requires w.r.stopping && Enabled(w, s) && !s.StartServing?
    ensures var v := Next(w, s, refund);
            && v.r.stopping
            && v.r.inflight.Keys <= w.r.inflight.Keys
            && forall id :: id in v.r.inflight ==> v.r.inflight[id] == w.r.inflight[id]
  {
    if s.MarkDone? {
      FinishKeepsCounts(w.r, w.callers[s.c].id);
    }
  }

  lemma StepKeepsDrain(w: World, s: Step, refund: bool)
    requires DrainAccounted(w) && SlotsAccounted(w, refund) && MapMatches(w) && Enabled(w, s)
    ensures DrainAccounted(Next(w, s, refund))
  {
    var v := Next(w, s, refund);
    if w.shutdown != Serving && !s.StartServing? {
      StoppingOnlyShrinks(w, s, refund);
      if s.DrainEmpty? {
        assert forall id :: id in w.r.inflight ==> w.r.inflight[id] in Group(w);
      }
      hide Finish;
    } else if s.MarkDone? {
      FinishKeepsCounts(w.r, w.callers[s.c].id);
    }
  }

  // ---------------------------------------------------------------- whole runs

  lemma StepKeepsInv(w: World, s: Step, refund: bool)
    requires Inv(w, refund) && Enabled(w, s)
    ensures Inv(Next(w, s, refund), refund)
  {
    hide Next, SlotsAccounted, MapMatches, DoneMatches, FinishedAreDone, StartedAccounted, StartedOnce, DrainAccounted;
    StepKeepsSlots(w, s, refund);
    StepKeepsMap(w, s, refund);
    StepKeepsDone(w, s, refund);
    StepKeepsFinished(w, s, refund);
    StepKeepsStarted(w, s, refund);
    StepKeepsOnce(w, s, refund);
    StepKeepsDrain(w, s, refund);
  }

  lemma {:induction false} RunKeepsInv(ws: seq<World>, steps: seq<Step>, refund: bool, i: nat)
    requires Run(ws, steps, refund) && i < |ws|
    ensures Inv(ws[i], refund)
  {
    if i == 0 {
      assert Holders(INITIAL) == {} && Group(INITIAL) == {} && Leaks(INITIAL) == {};
      assert Elements([]) == {};
    } else {
      RunKeepsInv(ws, steps, refund, i - 1);
      hide Inv, Next, Enabled;
      StepKeepsInv(ws[i - 1], steps[i - 1], refund);
    }
  }

  /** Slot tokens held are the callers and jobs that hold one plus the errJobDone returns so far,
      never more than three; giving the slot back removes the last term. */
  lemma SlotsInEveryRun(ws: seq<World>, steps: seq<Step>, refund: bool, i: nat)
    requires Run(ws, steps, refund) && i < |ws|
    ensures ws[i].r.tokens == |Holders(ws[i])| + (if refund then 0 else |Leaks(ws[i])|)
    ensures ws[i].r.tokens <= MAX_CONCURRENT
    ensures |ws[i].r.inflight| <= MAX_CONCURRENT
  {
    RunKeepsInv(ws, steps, refund, i);
    MapFitsHolders(ws[i]);
  }

  lemma MapFitsHolders(w: World)
    requires MapMatches(w)
    ensures |w.r.inflight| <= |Holders(w)|
  {
    var ids := set c | c in Holders(w) :: w.callers[c].id;
    forall id | id in w.r.inflight.Keys ensures id in ids {
      assert w.r.inflight[id] in Holders(w);
    }
    ImageCard(w.callers, Holders(w), ids);
    assert ids == w.r.inflight.Keys + (ids - w.r.inflight.Keys);
  }

  lemma {:induction false} SubsetCard(a: set<Call>, b: set<Call>)
    requires a <= b
    ensures |a| <= |b|
  {
    assert b == a + (b - a);
  }

  lemma {:induction false} ImageCard(callers: map<Call, Caller>, calls: set<Call>, ids: set<JobId>)
    requires calls <= callers.Keys
    requires forall id :: id in ids ==> exists c :: c in calls && callers[c].id == id
    ensures |ids| <= |calls|
    decreases |calls|
  {
    if ids != {} {
      var id :| id in ids;
      var c :| c in calls && callers[c].id == id;
      ImageCard(callers, calls - {c}, ids - {id});
    }
  }

  /** An id delivered only through handleJob starts at most once in a process life, whatever the
      redeliveries and slot waits: a second start means 1024 distinct other ids were marked done
      after it. A started id is running, remembered as done, or was pushed out by those. */
  lemma AtMostOnce(ws: seq<World>, steps: seq<Step>, refund: bool, i: nat, id: JobId)
    requires Run(ws, steps, refund) && i < |ws|
    requires OnlyHandled(ws[i], id)
    ensures forall a, b :: 0 <= a < b < |ws[i].starts| && ws[i].starts[a] == id && ws[i].starts[b] == id ==>
            Overrun(ws[i], id)
    ensures id in ws[i].starts ==> id in ws[i].r.inflight || id in ws[i].r.done || Overrun(ws[i], id)
  {
    RunKeepsInv(ws, steps, refund, i);
    if id in ws[i].starts && id !in ws[i].r.inflight && id !in ws[i].r.done {
      ForgottenMeansOverrun(ws[i], id);
    }
  }

  /** When drainJobs has returned, every job that was running has released its registration or
      been reported. */
  lemma DrainLeavesNothingUnaccounted(ws: seq<World>, steps: seq<Step>, refund: bool, i: nat, c: Call)
    requires Run(ws, steps, refund) && i < |ws|
    requires ws[i].shutdown == Drained && c in ws[i].callers
    ensures Registered(ws[i].callers[c].phase) ==> ws[i].callers[c].id in ws[i].reported
  {
    RunKeepsInv(ws, steps, refund, i);
  }

  // ---------------------------------------------------------------- acknowledgements

  /** What handleJob tells the queue about a delivery, once reserve has answered. */
  datatype Disposition = Undecided | Ack | Nak

  function DispositionOf(p: Phase): Disposition {
    match p
    case Waiting(_) => Undecided
    case Holding => Undecided
    case Refunding(why) => if why == Stopping then Nak else Ack
    case Refused(why) => if why == Stopping then Nak else Ack
    case _ => Ack
  }

  /** The step of a call at which it met a stopping agent: at its first check, at its second, or waiting on a
      context that was cancelled. */
  predicate MetStopping(w: World, s: Step, c: Call) {
    match s
    case Arrive(d, _, _) => d == c && w.r.stopping
    case Commit(d) => d == c && w.r.stopping
    case GiveUp(d) => d == c
    case _ => false
  }

  /** The step at which reserve settled it otherwise: it found the job running at its first check, or came
      to its second, where it starts the job or finds it running or done. */
  predicate MetJob(w: World, s: Step, c: Call) {
    match s
    case Arrive(d, id, _) => d == c && !w.r.stopping && id in w.r.inflight
    case Commit(d) => d == c && !w.r.stopping
    case _ => false
  }

  predicate StoppedBy(ws: seq<World>, steps: seq<Step>, i: nat, c: Call)
    requires |ws| == |steps| + 1 && i < |ws|
  {
    exists k :: 0 <= k < i && MetStopping(ws[k], steps[k], c)
  }

  predicate SettledBy(ws: seq<World>, steps: seq<Step>, i: nat, c: Call)
    requires |ws| == |steps| + 1 && i < |ws|
  {
    exists k :: 0 <= k < i && MetJob(ws[k], steps[k], c)
  }

  /** What is said of c so far, before it has arrived too. */
  function Told(w: World, c: Call): Disposition {
    if c in w.callers then DispositionOf(w.callers[c].phase) else Undecided
  }

  lemma StepTells(w: World, s: Step, refund: bool, c: Call)
    requires Enabled(w, s)
    ensures Told(Next(w, s, refund), c) ==
            if MetStopping(w, s, c) then Nak else if MetJob(w, s, c) then Ack else Told(w, c)
    ensures MetStopping(w, s, c) || MetJob(w, s, c) ==> Told(w, c) == Undecided
    ensures !(MetStopping(w, s, c) && MetJob(w, s, c))
  {
    hide Finish;
  }

  /** In every run a delivery is handed back if and only if it met a stopping agent, and acknowledged if and
      only if it was settled: its job was running, has finished, or has started. */
  lemma {:induction false} DispositionIsExact(ws: seq<World>, steps: seq<Step>, refund: bool, i: nat, c: Call)
    requires Run(ws, steps, refund) && i < |ws|
    ensures Told(ws[i], c) == Nak <==> StoppedBy(ws, steps, i, c)
    ensures Told(ws[i], c) == Ack <==> SettledBy(ws, steps, i, c)
  {
    hide MetStopping, MetJob, Told;
    if i == 0 {
      assert Told(INITIAL, c) == Undecided by { NotYetTold(INITIAL, c); }
    } else {
      DispositionIsExact(ws, steps, refund, i - 1, c);
      StepTells(ws[i - 1], steps[i - 1], refund, c);
      hide Next, Enabled;
      OneMoreStep(ws, steps, i, c);
    }
  }

  lemma NotYetTold(w: World, c: Call)
    requires c !in w.callers
    ensures Told(w, c) == Undecided
  {
  }

  lemma OneMoreStep(ws: seq<World>, steps: seq<Step>, i: nat, c: Call)
    requires |ws| == |steps| + 1 && 0 < i < |ws|
    ensures StoppedBy(ws, steps, i, c) <==> StoppedBy(ws, steps, i - 1, c) || MetStopping(ws[i - 1], steps[i - 1], c)
    ensures SettledBy(ws, steps, i, c) <==> SettledBy(ws, steps, i - 1, c) || MetJob(ws[i - 1], steps[i - 1], c)
  {
    hide MetStopping, MetJob;
  }

  /** Contexts: none later than the current one has been cancelled, and the current one is cancelled exactly
      from the end of the grace period on. So while the agent serves no waiting caller of this service is sent
      away, and once it has cancelled its jobs all of them can leave. */
  ghost predicate ContextsInOrder(w: World) {
    && (forall b :: b in w.r.cancelled ==> b <= w.r.base)
    && (w.shutdown == Serving || w.shutdown == Draining ==> w.r.base !in w.r.cancelled)
    && (w.shutdown == Cancelling ==> w.r.base in w.r.cancelled)
    && (w.shutdown == Serving ==> !w.r.stopping)
  }

  lemma StepKeepsContexts(w: World, s: Step, refund: bool)
    requires ContextsInOrder(w) && DrainAccounted(w) && Enabled(w, s)
    ensures ContextsInOrder(Next(w, s, refund))
  {
    hide Finish;
    if s.MarkDone? {
      FinishKeepsCounts(w.r, w.callers[s.c].id);
    }
  }

  lemma {:induction false} WaitersLeaveWhenCancelled(ws: seq<World>, steps: seq<Step>, refund: bool, i: nat)
    requires Run(ws, steps, refund) && i < |ws|
    ensures ContextsInOrder(ws[i])
    ensures var w := ws[i];
            forall c :: c in w.callers && w.callers[c].phase == Waiting(w.r.base) ==>
              && (w.shutdown == Cancelling ==> Enabled(w, GiveUp(c)))
              && (w.shutdown == Serving || w.shutdown == Draining ==> !Enabled(w, GiveUp(c)))
  {
    if i > 0 {
      WaitersLeaveWhenCancelled(ws, steps, refund, i - 1);
      RunKeepsInv(ws, steps, refund, i - 1);
      StepKeepsContexts(ws[i - 1], steps[i - 1], refund);
      hide Next;
    }
  }

  /** A caller waits on the context of the service it arrived in, so when that is cancelled it can leave. */
  lemma {:induction false} WaitsOnItsService(ws: seq<World>, steps: seq<Step>, refund: bool, k: nat, i: nat, c: Call)
    requires Run(ws, steps, refund) && k < i < |ws| && steps[k].Arrive? && steps[k].c == c
    requires forall j :: k < j < i ==> steps[j] != StartServing
    ensures c in ws[i].callers && ws[i].r.base == ws[k].r.base
    ensures ws[i].callers[c].phase.Waiting? ==> ws[i].callers[c].phase == Waiting(ws[k].r.base)
    ensures ws[i].callers[c].phase.Waiting? && ws[i].shutdown == Cancelling ==> Enabled(ws[i], GiveUp(c))
  {
    var w, s := ws[i - 1], steps[i - 1];
    WaitersLeaveWhenCancelled(ws, steps, refund, i);
    if i > k + 1 {
      WaitsOnItsService(ws, steps, refund, k, i - 1, c);
    }
    hide Next, Enabled, ContextsInOrder;
    assert Enabled(w, s) && ws[i] == Next(w, s, refund);
    WaitStep(w, s, refund, c);
  }

  lemma WaitStep(w: World, s: Step, refund: bool, c: Call)
    requires Enabled(w, s) && s != StartServing
    ensures var v := Next(w, s, refund);
            && v.r.base == w.r.base && (c in w.callers || (s.Arrive? && s.c == c) ==> c in v.callers)
            && (c in v.callers && v.callers[c].phase.Waiting? ==>
                  if c in w.callers then v.callers[c].phase == w.callers[c].phase
                  else v.callers[c].phase == Waiting(w.r.base))
            && (s.Arrive? ==> s.c !in w.callers)
  {
    hide Finish;
    if s.MarkDone? {
      FinishKeepsCounts(w.r, w.callers[s.c].id);
    }
  }

  /** Every id the registry or an acknowledgement knows of has started in this process. */
  ghost predicate AckedStarted(w: World) {
    && (forall id :: id in w.r.inflight ==> id in w.starts)
    && (forall id :: id in w.r.done ==> id in w.starts)
    && (forall c :: c in w.callers && DispositionOf(w.callers[c].phase) == Ack ==> w.callers[c].id in w.starts)
    && w.reported <= (set id | id in w.starts)
  }

  lemma StepKeepsAcked(w: World, s: Step, refund: bool)
    requires AckedStarted(w) && DoneMatches(w) && Enabled(w, s)
    ensures AckedStarted(Next(w, s, refund))
  {
    hide Finish, DoneMatches;
    DoneIsASet(w);
    LogsGrow(w, s, refund);
    if s.MarkDone? {
      FinishKeepsCounts(w.r, w.callers[s.c].id);
      FinishAddsOne(w.r, w.callers[s.c].id);
    }
    hide DoneSet;
  }

  lemma DoneIsASet(w: World)
    requires DoneMatches(w)
    ensures DoneSet(w.r) && |w.r.doneOrder| <= DONE_CAP
  {
  }

  lemma FinishAddsOne(r: Registry, id: JobId)
    requires DoneSet(r) && |r.doneOrder| <= DONE_CAP
    ensures Finish(r, id).done <= r.done + {id}
  {
    FinishKeepsNewest(r, id);
    hide Finish;
  }

  /** No job is lost to an acknowledgement: a delivery is acked only if that job started in this process, and
      only a job that did is reported interrupted. */
  lemma {:induction false} AckedOnlyIfStarted(ws: seq<World>, steps: seq<Step>, refund: bool, i: nat)
    requires Run(ws, steps, refund) && i < |ws|
    ensures AckedStarted(ws[i])
  {
    if i > 0 {
      AckedOnlyIfStarted(ws, steps, refund, i - 1);
      RunKeepsInv(ws, steps, refund, i - 1);
      StepKeepsAcked(ws[i - 1], steps[i - 1], refund);
    }
  }

  // ---------------------------------------------------------------- the lost slots

  lemma LeaksStay(w: World, s: Step)
    requires Enabled(w, s)
    ensures Leaks(w) <= Leaks(Next(w, s, false))
  {
  }

  /** As written, three redeliveries of finished jobs stop the agent for good: from then on no
      job starts, whatever is delivered, cancelled or restarted. */
  lemma {:induction false} ThreeLeaksBlockForever(ws: seq<World>, steps: seq<Step>, i: nat, j: nat)
    requires Run(ws, steps, false) && i <= j < |ws|
    requires |Leaks(ws[i])| == MAX_CONCURRENT
    ensures |Leaks(ws[j])| == MAX_CONCURRENT && Holders(ws[j]) == {} && ws[j].starts == ws[i].starts
  {
    RunKeepsInv(ws, steps, false, j);
    if j > i {
      ThreeLeaksBlockForever(ws, steps, i, j - 1);
      var w := ws[j - 1];
      LeaksStay(w, steps[j - 1]);
      SubsetCard(Leaks(w), Leaks(ws[j]));
      LogsGrow(w, steps[j - 1], false);
      assert forall c :: In(w, c, Holding) ==> c in Holders(w);
      hide Next;
    }
  }

  /** With the slot given back, a waiting caller is never shut out by anything but three holders. */
  lemma RefundKeepsSlotsFree(ws: seq<World>, steps: seq<Step>, i: nat, c: Call)
    requires Run(ws, steps, true) && i < |ws|
    requires c in ws[i].callers && ws[i].callers[c].phase.Waiting?
    ensures Enabled(ws[i], TakeSlot(c)) <==> |Holders(ws[i])| < MAX_CONCURRENT
  {
    RunKeepsInv(ws, steps, true, i);
  }

  lemma Extend(ws: seq<World>, steps: seq<Step>, s: Step) returns (ws': seq<World>, steps': seq<Step>)
    requires Run(ws, steps, false) && Enabled(ws[|ws| - 1], s)
    ensures Run(ws', steps', false) && ws'[|ws'| - 1] == Next(ws[|ws| - 1], s, false)
  {
    ws', steps' := ws + [Next(ws[|ws| - 1], s, false)], steps + [s];
  }

  /** One redelivery of a finished job costs one slot, and changes nothing else. */
  lemma RedeliveryLeaksASlot(ws: seq<World>, steps: seq<Step>, c: Call, id: JobId)
    returns (ws': seq<World>, steps': seq<Step>)
    requires Run(ws, steps, false)
    requires var w := ws[|ws| - 1];
             && c !in w.callers && !w.r.stopping && id in w.r.done && id !in w.r.inflight
             && w.r.tokens < MAX_CONCURRENT
    ensures Run(ws', steps', false)
    ensures var w, v := ws[|ws| - 1], ws'[|ws'| - 1];
            && v.r == w.r.(tokens := w.r.tokens + 1)
            && v.callers == w.callers[c := Caller(id, true, Refused(AlreadyDone))]
  {
    ws', steps' := Extend(ws, steps, Arrive(c, id, true));
    ws', steps' := Extend(ws', steps', TakeSlot(c));
    ws', steps' := Extend(ws', steps', Commit(c));
  }

  lemma OneJobStarts(id: JobId) returns (ws: seq<World>, steps: seq<Step>)
    ensures Run(ws, steps, false)
    ensures var w := ws[|ws| - 1];
            && w.r == INITIAL.r.(inflight := map[id := 0], tokens := 1, wg := 1)
            && w.callers == map[0 := Caller(id, true, Running)]
  {
    ws, steps := [INITIAL], [];
    ws, steps := Extend(ws, steps, Arrive(0, id, true));
    ws, steps := Extend(ws, steps, TakeSlot(0));
    ws, steps := Extend(ws, steps, Commit(0));
  }

  /** A first delivery of a job, run to the end. */
  lemma OneJobRuns(id: JobId) returns (ws: seq<World>, steps: seq<Step>)
    ensures Run(ws, steps, false)
    ensures var w := ws[|ws| - 1];
            && w.r == INITIAL.r.(done := {id}, doneOrder := [id])
            && w.callers == map[0 := Caller(id, true, Released)]
  {
    ws, steps := OneJobStarts(id);
    ws, steps := Extend(ws, steps, MarkDone(0));
    ws, steps := Extend(ws, steps, Unregister(0));
    ws, steps := Extend(ws, steps, ReturnSlot(0));
    ws, steps := Extend(ws, steps, LeaveGroup(0));
  }

  /** Three redeliveries of one finished job are enough to reach the blocked state. */
  lemma ThreeRedeliveriesBlock(id: JobId) returns (ws: seq<World>, steps: seq<Step>)
    ensures Run(ws, steps, false)
    ensures |Leaks(ws[|ws| - 1])| == MAX_CONCURRENT
  {
    ws, steps := OneJobRuns(id);
    ws, steps := RedeliveryLeaksASlot(ws, steps, 1, id);
    ws, steps := RedeliveryLeaksASlot(ws, steps, 2, id);
    ws, steps := RedeliveryLeaksASlot(ws, steps, 3, id);
    assert Leaks(ws[|ws| - 1]) == {1, 2, 3};
  }
}
