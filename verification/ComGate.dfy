/**
 Callers, their cancellations, the install gate and the one COM thread, as a machine in which every
 step is one thing a goroutine does. A caller may walk away from a call; the thread cannot be stopped.
 */
module ComGate {
  import opened InstallResult

  /** What a caller was told. */
  datatype Answer = Busy | NotStarted | Completed(result: Result) | GaveUp(result: Result)

  /** Where a caller is: before the gate, past it, offering the closure to the thread, waiting for the
      result, back with a call that never started, or done. */
  datatype Phase = Begin | Ready | Sending | Waiting | Refused | Done(answer: Answer)

  /** Where its closure is. The gate is released between Running and Returning. */
  datatype Closure = Unsent | Running(local: Result) | Returning(value: Result) | Delivered(value: Result)

  /** One call of installViaCOM, or of comDo alone when gated is false, with how often it has taken
      and released the gate. */
  datatype Call = Call(
    gated: bool, ids: seq<string>, cancelled: bool, phase: Phase, closure: Closure, acquires: nat, releases: nat)

  datatype Thread = Idle | Serving(c: nat)

  /** initialised is false when the apartment could not be set up. */
  datatype World = World(calls: seq<Call>, held: bool, thread: Thread, initialised: bool)

  datatype Step =
    | Arrive(gated: bool, ids: seq<string>)
    | Acquire(c: nat)
    | Check(c: nat)
    | Send(c: nat)
    | GiveUpSending(c: nat)
    | Cancel(c: nat)
    | Work(c: nat, r: Result)
    | Finish(c: nat)
    | Deliver(c: nat)
    | Receive(c: nat)
    | Abandon(c: nat)
    | Return(c: nat)

  predicate Enabled(w: World, step: Step) {
    step.Arrive? || (step.c < |w.calls| && CanStep(w.calls[step.c], w.thread, step))
  }

  predicate CanStep(call: Call, thread: Thread, step: Step) {
    match step
    case Arrive(_, _) => true
    case Acquire(c) => call.phase == Begin
    case Check(c) => call.phase == Ready
    case Send(c) => call.phase == Sending && thread == Idle
    case GiveUpSending(c) => call.phase == Sending && call.cancelled
    case Cancel(c) => true
    case Work(c, _) => call.closure.Running?
    case Finish(c) => call.closure.Running?
    case Deliver(c) => call.closure.Returning?
    case Receive(c) => call.phase == Waiting && call.closure.Delivered?
    case Abandon(c) => call.phase == Waiting && call.cancelled && !call.closure.Delivered?
    case Return(c) => call.phase == Refused
  }

  /** The call after its own step; free says whether the gate was free. */
  function After(call: Call, thread: Thread, step: Step, free: bool, initialised: bool): Call
    requires CanStep(call, thread, step)
  {
    match step
    case Arrive(_, _) => call
    case Acquire(c) =>
      if !call.gated then call.(phase := Ready)
      else if free then call.(phase := Ready, acquires := call.acquires + 1)
      else call.(phase := Done(Busy))
    case Check(c) => call.(phase := if !initialised || call.cancelled then Refused else Sending)
    case Send(c) => call.(phase := Waiting, closure := Running(EMPTY))
    case GiveUpSending(c) => call.(phase := Refused)
    case Cancel(c) => call.(cancelled := true)
    case Work(c, r) => call.(closure := Running(r))
    case Finish(c) =>
      call.(closure := Returning(call.closure.local), releases := call.releases + if call.gated then 1 else 0)
    case Deliver(c) => call.(closure := Delivered(call.closure.value))
    case Receive(c) => call.(phase := Done(Completed(call.closure.value)))
    case Abandon(c) => call.(phase := Done(GaveUp(Abandoned(call.ids))))
    case Return(c) => call.(phase := Done(NotStarted), releases := call.releases + if call.gated then 1 else 0)
  }

  function HeldAfter(held: bool, gated: bool, step: Step): bool {
    if !gated then held
    else if step.Acquire? then true
    else if step.Finish? || step.Return? then false
    else held
  }

  function ThreadAfter(thread: Thread, step: Step): Thread {
    match step
    case Send(c) => Serving(c)
    case Deliver(c) => Idle
    case _ => thread
  }

  function Next(w: World, step: Step): World
    requires Enabled(w, step)
  {
    if step.Arrive? then
      w.(calls := w.calls + [Call(step.gated, step.ids, false, Begin, Unsent, 0, 0)])
    else
      var call := w.calls[step.c];
      w.(calls := w.calls[step.c := After(call, w.thread, step, !w.held, w.initialised)],
         held := HeldAfter(w.held, call.gated, step),
         thread := ThreadAfter(w.thread, step))
  }

  predicate Start(w: World) { w.calls == [] && !w.held && w.thread == Idle }

  predicate Run(ws: seq<World>, steps: seq<Step>) {
    && |ws| == |steps| + 1 && Start(ws[0])
    && forall i :: 0 <= i < |steps| ==> Enabled(ws[i], steps[i]) && ws[i + 1] == Next(ws[i], steps[i])
  }

  // ---------------------------------------------------------------- what every step keeps

  /** Admitted and not finished: past the gate and not refused for good, or still running, whether or
      not anyone is waiting. */
  predicate Owns(call: Call) {
    call.gated && (call.phase in {Ready, Sending, Refused} || call.closure.Running?)
  }

  /** One call on its own: its closure is unsent until its caller sends it, its counts match where it
      is, and what its caller was told is true. */
  predicate Consistent(call: Call) {
    && (call.closure.Unsent? <==> call.phase in {Begin, Ready, Sending, Refused, Done(Busy), Done(NotStarted)})
    && call.acquires == (if !call.gated || call.phase in {Begin, Done(Busy)} then 0 else 1)
    && call.releases == call.acquires - (if Owns(call) then 1 else 0)
    && (call.phase.Done? ==> Truthful(call, call.phase.answer))
  }

  predicate Truthful(call: Call, answer: Answer) {
    match answer
    case Completed(r) => call.closure == Delivered(r)
    case GaveUp(r) => r == Abandoned(call.ids) && call.cancelled
    case _ => true
  }

  /** A call is turned back only when cancelled or when there is no apartment, and without one none
      reaches the thread. */
  predicate Startable(call: Call, initialised: bool) {
    && (call.phase in {Refused, Done(NotStarted)} ==> call.cancelled || !initialised)
    && (call.phase == Sending || !call.closure.Unsent? ==> initialised)
  }

  predicate OnThread(call: Call) { call.closure.Running? || call.closure.Returning? }

  /** The thread serves the one call whose closure is on it. */
  predicate ThreadInv(w: World) {
    && (forall c :: 0 <= c < |w.calls| ==> (OnThread(w.calls[c]) <==> w.thread == Serving(c)))
    && (w.thread.Serving? ==> w.thread.c < |w.calls|)
  }

  /** The gate is held exactly while some call owns it, and one call at most does. */
  predicate GateInv(w: World) {
    && (w.held <==> exists c :: 0 <= c < |w.calls| && Owns(w.calls[c]))
    && (forall c, d :: 0 <= c < |w.calls| && 0 <= d < |w.calls| && Owns(w.calls[c]) && Owns(w.calls[d]) ==> c == d)
  }

  predicate Inv(w: World) {
    && (forall c :: 0 <= c < |w.calls| ==> Consistent(w.calls[c]) && Startable(w.calls[c], w.initialised))
    && ThreadInv(w) && GateInv(w)
  }

  /** How a step moves one call: consistency, and when it starts or stops owning the gate. */
  lemma CallKeeps(call: Call, thread: Thread, step: Step, free: bool, initialised: bool)
    requires Consistent(call) && CanStep(call, thread, step) && !step.Arrive?
    ensures var t := After(call, thread, step, free, initialised);
            && Consistent(t) && t.gated == call.gated
            && Owns(t) == (if step.Acquire? then call.gated && free else Owns(call) && !step.Finish? && !step.Return?)
            && OnThread(t) == (step.Send? || (OnThread(call) && !step.Deliver?))
            && (step.Finish? || step.Return? ==> Owns(call) == call.gated)
            && (step.Acquire? ==> !Owns(call)) && (step.Send? ==> !OnThread(call)) && (step.Deliver? ==> OnThread(call))
  {
  }

  lemma CallKeepsStartable(call: Call, thread: Thread, step: Step, free: bool, initialised: bool)
    requires Consistent(call) && Startable(call, initialised) && CanStep(call, thread, step) && !step.Arrive?
    ensures Startable(After(call, thread, step, free, initialised), initialised)
  {
  }

  lemma GateStep(w: World, t: World, step: Step)
    requires GateInv(w) && !step.Arrive? && step.c < |w.calls| == |t.calls|
    requires forall c :: 0 <= c < |t.calls| && c != step.c ==> t.calls[c] == w.calls[c]
    requires t.held == HeldAfter(w.held, w.calls[step.c].gated, step)
    requires step.Acquire? ==> !Owns(w.calls[step.c]) && Owns(t.calls[step.c]) == (w.calls[step.c].gated && !w.held)
    requires step.Finish? || step.Return? ==> !Owns(t.calls[step.c]) && Owns(w.calls[step.c]) == w.calls[step.c].gated
    requires !step.Acquire? && !step.Finish? && !step.Return? ==> Owns(t.calls[step.c]) == Owns(w.calls[step.c])
    ensures GateInv(t)
  {
    hide Owns;
    if w.held {
      var c :| 0 <= c < |w.calls| && Owns(w.calls[c]);
      assert c != step.c ==> Owns(t.calls[c]);
    }
    assert forall c :: 0 <= c < |t.calls| && Owns(t.calls[c]) ==> c == step.c || Owns(w.calls[c]);
  }

  lemma ThreadStep(w: World, t: World, step: Step)
    requires ThreadInv(w) && !step.Arrive? && step.c < |w.calls| == |t.calls|
    requires forall c :: 0 <= c < |t.calls| && c != step.c ==> t.calls[c] == w.calls[c]
    requires t.thread == ThreadAfter(w.thread, step)
    requires OnThread(t.calls[step.c]) == (step.Send? || (OnThread(w.calls[step.c]) && !step.Deliver?))
    requires step.Send? ==> w.thread == Idle
    requires step.Deliver? ==> OnThread(w.calls[step.c])
    ensures ThreadInv(t)
  {
    hide OnThread;
  }

  lemma ArrivalKeepsInv(w: World, step: Step)
    requires Inv(w) && step.Arrive?
    ensures Inv(Next(w, step))
  {
    var t := Next(w, step);
    assert forall c :: 0 <= c < |w.calls| ==> t.calls[c] == w.calls[c];
    if w.held {
      var c :| 0 <= c < |w.calls| && Owns(w.calls[c]);
      assert Owns(t.calls[c]);
    }
  }

  lemma StepKeepsInv(w: World, step: Step)
    requires Inv(w) && Enabled(w, step)
    ensures Inv(Next(w, step))
  {
    if step.Arrive? {
      ArrivalKeepsInv(w, step);
    } else {
      hide After, Consistent, Startable, Owns, OnThread, GateInv, ThreadInv, ThreadAfter, HeldAfter;
      var t := Next(w, step);
      CallKeeps(w.calls[step.c], w.thread, step, !w.held, w.initialised);
      CallKeepsStartable(w.calls[step.c], w.thread, step, !w.held, w.initialised);
      assert forall c :: 0 <= c < |t.calls| && c != step.c ==> t.calls[c] == w.calls[c];
      GateStep(w, t, step);
      ThreadStep(w, t, step);
    }
  }

  lemma {:induction false} RunKeepsInv(ws: seq<World>, steps: seq<Step>, j: nat)
    requires Run(ws, steps) && j < |ws|
    ensures Inv(ws[j])
  {
    hide Inv, Enabled, Next;
    if j == 0 {
      StartIsInv(ws[0]);
    } else {
      RunKeepsInv(ws, steps, j - 1);
      StepKeepsInv(ws[j - 1], steps[j - 1]);
    }
  }

  lemma StartIsInv(w: World)
    requires Start(w)
    ensures Inv(w)
  {
  }

  // ---------------------------------------------------------------- what that means

  /** In every reachable state: the gate is held exactly while some install is admitted and
      unfinished, never more than one is, and that includes one whose caller has walked away. */
  lemma OneInstallAtATime(ws: seq<World>, steps: seq<Step>, j: nat)
    requires Run(ws, steps) && j < |ws|
    ensures ws[j].held <==> exists c :: 0 <= c < |ws[j].calls| && Owns(ws[j].calls[c])
    ensures var calls := ws[j].calls;
            forall c, d :: 0 <= c < |calls| && 0 <= d < |calls| && Owns(calls[c]) && Owns(calls[d]) ==> c == d
    ensures forall c :: 0 <= c < |ws[j].calls| && ws[j].calls[c].gated && ws[j].calls[c].closure.Running? ==> ws[j].held
  {
    RunKeepsInv(ws, steps, j);
    hide Run;
  }

  /** Each call takes the gate at most once and releases it at most as often; when its caller is done
      and its closure is not running, exactly as often. */
  lemma EveryAcquireReleasedOnce(ws: seq<World>, steps: seq<Step>, j: nat, c: nat)
    requires Run(ws, steps) && j < |ws| && c < |ws[j].calls|
    ensures var call := ws[j].calls[c];
            && call.releases <= call.acquires <= 1
            && (call.phase.Done? && !call.closure.Running? ==> call.releases == call.acquires)
  {
    RunKeepsInv(ws, steps, j);
    hide Run;
    assert Consistent(ws[j].calls[c]);
  }

  /** A release never frees somebody else's hold: the call that releases is the one that holds. */
  lemma ReleaseIsByTheHolder(ws: seq<World>, steps: seq<Step>, j: nat, d: nat)
    requires Run(ws, steps) && j < |steps| && d < |ws[j].calls|
    requires ws[j].held && !ws[j + 1].held
    ensures (steps[j].Finish? || steps[j].Return?) && Owns(ws[j].calls[steps[j].c])
    ensures d != steps[j].c ==> !Owns(ws[j].calls[d])
  {
    RunKeepsInv(ws, steps, j);
    var w, step := ws[j], steps[j];
    assert Enabled(w, step) && ws[j + 1] == Next(w, step);
    hide Run;
    CallKeeps(w.calls[step.c], w.thread, step, !w.held, w.initialised);
  }

  /** A caller is told the backend is busy only while another install is admitted and unfinished. */
  lemma BusyOnlyIfAnotherIsUnfinished(ws: seq<World>, steps: seq<Step>, j: nat, c: nat)
    requires Run(ws, steps) && j < |steps| && steps[j] == Acquire(c)
    requires ws[j + 1].calls[c].phase == Done(Busy)
    ensures exists d :: 0 <= d < |ws[j].calls| && d != c && Owns(ws[j].calls[d])
  {
    RunKeepsInv(ws, steps, j);
    assert Enabled(ws[j], steps[j]) && ws[j + 1] == Next(ws[j], steps[j]);
    hide Run;
    var d :| 0 <= d < |ws[j].calls| && Owns(ws[j].calls[d]);
    assert Consistent(ws[j].calls[c]);
  }

  /** What the closure of a call has done so far: the last thing it did, or nothing. */
  function WorkDone(steps: seq<Step>, c: nat): Result {
    if steps == [] then EMPTY
    else
      var last := steps[|steps| - 1];
      if last.Work? && last.c == c then last.r else WorkDone(steps[..|steps| - 1], c)
  }

  /** Everywhere a call has a result, it is this one. */
  predicate Carries(call: Call, r: Result) {
    && (match call.closure
        case Unsent => r == EMPTY
        case Running(local) => local == r
        case Returning(value) => value == r
        case Delivered(value) => value == r)
    && (call.phase.Done? && call.phase.answer.Completed? ==> call.phase.answer.result == r)
  }

  lemma CallCarries(call: Call, thread: Thread, step: Step, free: bool, initialised: bool, r: Result)
    requires Consistent(call) && Carries(call, r) && CanStep(call, thread, step) && !step.Arrive?
    ensures Carries(After(call, thread, step, free, initialised), if step.Work? then step.r else r)
  {
  }

  /** In every run a call's result, from the thread to the answer, is what its own closure last did. */
  lemma {:induction false} ResultIsTheWorkDone(ws: seq<World>, steps: seq<Step>, j: nat, c: nat)
    requires Run(ws, steps) && j < |ws| && c < |ws[j].calls|
    ensures Carries(ws[j].calls[c], WorkDone(steps[..j], c))
  {
    var w, step := ws[j - 1], steps[j - 1];
    assert Enabled(w, step) && ws[j] == Next(w, step);
    RunKeepsInv(ws, steps, j - 1);
    assert steps[..j][..j - 1] == steps[..j - 1];
    hide Run, After, Consistent, ThreadInv, GateInv, Carries;
    if c < |w.calls| {
      ResultIsTheWorkDone(ws, steps, j - 1, c);
      if !step.Arrive? && step.c == c {
        CallCarries(w.calls[c], w.thread, step, !w.held, w.initialised, WorkDone(steps[..j - 1], c));
      }
    } else {
      NoWorkBefore(ws, steps, j - 1, c);
      NewCallCarries(step.gated, step.ids);
    }
  }

  lemma NewCallCarries(gated: bool, ids: seq<string>)
    ensures Carries(Call(gated, ids, false, Begin, Unsent, 0, 0), EMPTY)
  {
  }

  /** A call that has not arrived has done nothing. */
  lemma {:induction false} NoWorkBefore(ws: seq<World>, steps: seq<Step>, j: nat, c: nat)
    requires Run(ws, steps) && j < |ws| && c >= |ws[j].calls|
    ensures WorkDone(steps[..j], c) == EMPTY
  {
    if j > 0 {
      var w, step := ws[j - 1], steps[j - 1];
      assert Enabled(w, step) && ws[j] == Next(w, step);
      assert steps[..j][..j - 1] == steps[..j - 1];
      hide Run, After;
      NoWorkBefore(ws, steps, j - 1, c);
    }
  }

  /** What a caller is told: the result of what its closure did and delivered, or for an abandoned wait a
      value that depends on the requested ids alone, whatever the closure has done or goes on to do. One
      told it never started was cancelled or had no apartment, and has done nothing. */
  lemma AnswersAreSafe(ws: seq<World>, steps: seq<Step>, j: nat, c: nat)
    requires Run(ws, steps) && j < |ws| && c < |ws[j].calls| && ws[j].calls[c].phase.Done?
    ensures var call := ws[j].calls[c];
            match call.phase.answer
            case Completed(r) => call.closure == Delivered(r) && r == WorkDone(steps[..j], c)
            case GaveUp(r) => r == Abandoned(call.ids) && call.cancelled
            case NotStarted => call.closure == Unsent && (call.cancelled || !ws[j].initialised)
            case Busy => call.closure == Unsent
  {
    RunKeepsInv(ws, steps, j);
    ResultIsTheWorkDone(ws, steps, j, c);
    hide Run, WorkDone;
    assert Consistent(ws[j].calls[c]) && Startable(ws[j].calls[c], ws[j].initialised);
  }

  /** A caller that is cancelled stays so, and can always leave by a step of its own, whatever the thread is
      doing. */
  lemma {:induction false} CancelledCallerCanLeave(ws: seq<World>, steps: seq<Step>, i: nat, j: nat, c: nat)
      returns (step: Step)
    requires Run(ws, steps) && i < j < |ws| && steps[i] == Cancel(c)
    ensures c < |ws[j].calls| && ws[j].calls[c].cancelled
    ensures !ws[j].calls[c].phase.Done? ==>
              && Enabled(ws[j], step)
              && step in {Acquire(c), Check(c), GiveUpSending(c), Receive(c), Abandon(c), Return(c)}
  {
    var w := ws[j - 1];
    assert Enabled(w, steps[j - 1]) && ws[j] == Next(w, steps[j - 1]);
    if j > i + 1 {
      step := CancelledCallerCanLeave(ws, steps, i, j - 1, c);
    }
    hide Run;
    var call := ws[j].calls[c];
    step := match call.phase
      case Begin => Acquire(c)
      case Ready => Check(c)
      case Sending => GiveUpSending(c)
      case Waiting => if call.closure.Delivered? then Receive(c) else Abandon(c)
      case _ => Return(c);
  }

  /** A call that was cancelled, or had no apartment, when it came to the thread never gets onto it. */
  lemma {:induction false} CancelledInTimeNeverRuns(ws: seq<World>, steps: seq<Step>, i: nat, j: nat, c: nat)
    requires Run(ws, steps) && i < j < |ws| && steps[i] == Check(c)
    requires ws[i].calls[c].cancelled || !ws[i].initialised
    ensures c < |ws[j].calls| && ws[j].calls[c].phase in {Refused, Done(NotStarted)}
    ensures ws[j].calls[c].closure == Unsent
  {
    var w, step := ws[j - 1], steps[j - 1];
    assert Enabled(w, step) && ws[j] == Next(w, step);
    if j > i + 1 {
      CancelledInTimeNeverRuns(ws, steps, i, j - 1, c);
    } else {
      RunKeepsInv(ws, steps, i);
      assert Consistent(w.calls[c]);
    }
    hide Run;
  }

  /** The gate is never stuck: whenever it is held, its holder can step, or it waits for a thread that
      can. */
  lemma HeldGateCanMove(ws: seq<World>, steps: seq<Step>, j: nat) returns (step: Step)
    requires Run(ws, steps) && j < |ws| && ws[j].held
    ensures Enabled(ws[j], step) && !step.Arrive? && !step.Cancel? && !step.Work?
    ensures Owns(ws[j].calls[step.c]) || ws[j].thread == Serving(step.c)
  {
    RunKeepsInv(ws, steps, j);
    hide Run;
    var w := ws[j];
    var c :| 0 <= c < |w.calls| && Owns(w.calls[c]);
    if w.calls[c].phase == Ready {
      step := Check(c);
    } else if w.calls[c].phase == Refused {
      step := Return(c);
    } else if w.calls[c].closure.Running? {
      step := Finish(c);
    } else if w.thread == Idle {
      step := Send(c);
    } else {
      var d := w.thread.c;
      assert OnThread(w.calls[d]);
      step := if w.calls[d].closure.Running? then Finish(d) else Deliver(d);
    }
  }
}
