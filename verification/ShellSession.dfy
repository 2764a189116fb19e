/**
 A shell session before it is closed: the read pump, the monitor, server acks and link changes
 interleave around the flow counter and the disconnect ring. One step is one locked section or
 one published frame.
 */
module ShellSession {
  import opened Basics
  import opened ShellParts

  /** The pump: about to consult the gate, blocked on one, free to read, holding what it read until
      it gets the output lock, or publishing it under the lock. */
  datatype Pump = AtWait | Blocked(g: nat) | Ready | Holding | Publishing | Stopped

  datatype Lock = Free | ByPump | ByMonitor

  datatype Event = Data(frame: Bytes) | Gap

  /** `pend` is what was drained from the ring and not yet published; `hand` what the pump read and
      not yet published or buffered. `out` is everything read from the terminal, `log` everything
      sent, in order. */
  datatype Session = Session(
    flow: Flow, buf: Bytes, dropped: bool, down: bool, link: bool,
    pump: Pump, lock: Lock, wantsFlush: bool,
    pend: Bytes, hand: Bytes, out: Bytes, log: seq<Event>)

  const INITIAL := Session(Flow(0, false, None, 0, {}), [], false, false, true, AtWait, Free, false, [], [], [], [])

  datatype Step =
    | LinkChange(up: bool)
    | Ack(n: int)
    | ConsultGate
    | Wake
    | Read(data: Bytes)
    | ReadFailed
    | EmitLock
    | MonitorTick
    | MonitorFlush
    | Publish(ok: bool)
    | Unlock

  predicate Enabled(s: Session, step: Step) {
    match step
    case LinkChange(_) => true
    case Ack(_) => true
    case ConsultGate => s.pump == AtWait
    case Wake => s.pump.Blocked? && s.pump.g in s.flow.closed
    case Read(data) => s.pump == Ready && |data| <= MAX_FRAME
    case ReadFailed => s.pump == Ready
    case EmitLock => s.pump == Holding && s.lock == Free
    case MonitorTick => true
    case MonitorFlush => s.wantsFlush && s.lock == Free
    case Publish(_) => s.lock != Free && (s.pend != [] || (s.lock == ByPump && s.hand != []))
    case Unlock => s.lock != Free && s.pend == [] && (s.lock == ByPump ==> s.hand == [])
  }

  /** flushLocked: drain the ring if a disconnect was recorded, announcing a gap first. */
  function Flush(s: Session): Session {
    if !s.down then s
    else s.(down := false, pend := s.buf, buf := [], dropped := false,
            log := if s.dropped then s.log + [Gap] else s.log)
  }

  predicate DropsBytes(buf: Bytes, p: Bytes) {
    |buf| + |p| > RING_BYTES || (|p| == RING_BYTES && buf == [])
  }

  /** emit, up to the point where it starts publishing. */
  function Emit(s: Session): Session {
    if !s.link then
      s.(down := true, buf := LastN(s.buf + s.hand, RING_BYTES),
         dropped := s.dropped || (s.hand != [] && DropsBytes(s.buf, s.hand)),
         hand := [], pump := AtWait)
    else Flush(s).(lock := ByPump, pump := Publishing)
  }

  function FrameOf(data: Bytes): Bytes {
    if |data| <= MAX_FRAME then data else data[..MAX_FRAME]
  }

  /** One turn of publishFrames. A failed publish abandons the rest of that call. */
  function PublishOne(s: Session, ok: bool): Session {
    var data := if s.pend != [] then s.pend else s.hand;
    var frame := FrameOf(data);
    var rest := if ok then data[|frame|..] else [];
    var s1 := if s.pend != [] then s.(pend := rest) else s.(hand := rest);
    if ok then s1.(flow := Sent(s.flow, |frame|), log := s.log + [Data(frame)]) else s1
  }

  function Next(s: Session, step: Step): Session
    requires Enabled(s, step)
  {
    match step
    case LinkChange(up) => s.(link := up)
    case Ack(n) => s.(flow := Acked(s.flow, n))
    case ConsultGate => s.(pump := if s.flow.gate.None? then Ready else Blocked(s.flow.gate.value))
    case Wake => s.(pump := Ready)
    case Read(data) =>
      if data == [] then s.(pump := AtWait) else s.(pump := Holding, hand := data, out := s.out + data)
    case ReadFailed => s.(pump := Stopped)
    case EmitLock => Emit(s)
    case MonitorTick => if s.link then s.(wantsFlush := true) else s.(down := true)
    case MonitorFlush => Flush(s).(lock := ByMonitor, wantsFlush := false)
    case Publish(ok) => PublishOne(s, ok)
    case Unlock => s.(lock := Free, pump := if s.lock == ByPump then AtWait else s.pump)
  }

  predicate Run(ss: seq<Session>, steps: seq<Step>) {
    && |ss| == |steps| + 1 && ss[0] == INITIAL
    && forall i :: 0 <= i < |steps| ==> Enabled(ss[i], steps[i]) && ss[i + 1] == Next(ss[i], steps[i])
  }

  // ---------------------------------------------------------------- the bound

  /** Who may hold what: undelivered bytes exist only where the phase says they do. */
  predicate Phased(s: Session) {
    && (s.hand != [] ==> s.pump == Holding || s.pump == Publishing)
    && (s.pump == Publishing <==> s.lock == ByPump)
    && (s.pend != [] ==> s.lock != Free && s.buf == [])
    && |s.hand| <= MAX_FRAME
    && |s.pend| + |s.buf| <= RING_BYTES
  }

  /** The next thing the pump does may be a read. */
  predicate MayRead(s: Session) {
    s.pump == Ready || (s.pump.Blocked? && s.pump.g in s.flow.closed)
  }

  /** A blocked pump waits on a gate that was really opened: the current one, or one closed since. */
  predicate GateKnown(s: Session) {
    s.pump.Blocked? ==> s.pump.g in s.flow.closed || s.flow.gate == Some(s.pump.g)
  }

  /** Everything that can still become unacknowledged without another read. */
  function Committed(s: Session): int {
    s.flow.unacked + |s.pend| + |s.buf| + |s.hand|
  }

  predicate Bounded(s: Session) {
    && FlowValid(s.flow) && Phased(s) && GateKnown(s)
    && Committed(s) <= PAUSE_ABOVE + RING_BYTES + MAX_FRAME
    && (MayRead(s) ==> Committed(s) <= PAUSE_ABOVE + RING_BYTES)
  }

  lemma AckKeepsBounded(s: Session, n: int)
    requires Bounded(s)
    ensures Bounded(Next(s, Ack(n)))
  {
  }

  function NextFrame(s: Session): Bytes {
    FrameOf(if s.pend != [] then s.pend else s.hand)
  }

  /** Publishing moves bytes from owed to unacknowledged, or loses them. */
  lemma PublishMoves(s: Session, ok: bool)
    requires Enabled(s, Publish(ok)) && Phased(s)
    ensures var t := Next(s, Publish(ok));
            && Phased(t) && t.pump == s.pump
            && t.flow == (if ok then Sent(s.flow, |NextFrame(s)|) else s.flow)
            && |t.pend| + |t.buf| + |t.hand| + (if ok then |NextFrame(s)| else 0) <= |s.pend| + |s.buf| + |s.hand|
  {
    hide Sent;
  }

  lemma PublishKeepsBounded(s: Session, ok: bool)
    requires Bounded(s) && Enabled(s, Publish(ok))
    ensures Bounded(Next(s, Publish(ok)))
  {
    hide Next, Sent, FlowValid, Phased, NextFrame;
    PublishMoves(s, ok);
    SentPausesIff(s.flow, |NextFrame(s)|);
  }

  lemma EmitKeepsBounded(s: Session)
    requires Bounded(s) && Enabled(s, EmitLock)
    ensures Bounded(Next(s, EmitLock))
  {
  }

  lemma PumpKeepsBounded(s: Session, step: Step)
    requires Bounded(s) && Enabled(s, step)
    requires step.ConsultGate? || step.Wake? || step.Read? || step.ReadFailed?
    ensures Bounded(Next(s, step))
  {
  }

  lemma StepKeepsBounded(s: Session, step: Step)
    requires Bounded(s) && Enabled(s, step)
    ensures Bounded(Next(s, step))
  {
    match step {
      case Ack(n) => AckKeepsBounded(s, n);
      case Publish(ok) => PublishKeepsBounded(s, ok);
      case EmitLock => EmitKeepsBounded(s);
      case ConsultGate => PumpKeepsBounded(s, step);
      case Wake => PumpKeepsBounded(s, step);
      case Read(_) => PumpKeepsBounded(s, step);
      case ReadFailed => PumpKeepsBounded(s, step);
      case _ => RestKeepsBounded(s, step);
    }
    hide Bounded, Next;
  }

  lemma RestKeepsBounded(s: Session, step: Step)
    requires Bounded(s) && Enabled(s, step)
    requires step.LinkChange? || step.MonitorTick? || step.MonitorFlush? || step.Unlock?
    ensures Bounded(Next(s, step))
  {
  }

  /** However the pump, the monitor, acks and link changes interleave, the server is never more
      than the pause threshold plus one ring plus one frame behind, even when the pump wakes on a
      gate that was closed before a new pause began. */
  lemma {:induction false} UnackedNeverExceeds(ss: seq<Session>, steps: seq<Step>, i: nat)
    requires Run(ss, steps) && i < |ss|
    ensures Bounded(ss[i])
    ensures ss[i].flow.unacked <= PAUSE_ABOVE + RING_BYTES + MAX_FRAME
  {
    if i > 0 {
      UnackedNeverExceeds(ss, steps, i - 1);
      StepKeepsBounded(ss[i - 1], steps[i - 1]);
      hide Next;
    }
  }

  // ---------------------------------------------------------------- and it never stalls

  /** A session is paused only while the server is more than the resume threshold behind. */
  predicate PausedBehind(s: Session) { s.flow.paused ==> s.flow.unacked > RESUME_BELOW }

  lemma StepKeepsPausedBehind(s: Session, step: Step)
    requires Bounded(s) && PausedBehind(s) && Enabled(s, step)
    ensures PausedBehind(Next(s, step))
  {
    hide Bounded, Acked, Sent, FlowValid, Flush, Emit;
    BoundedFlow(s);
    if step.Ack? {
      AckResumesIff(s.flow, step.n);
    } else if step.Publish? {
      SentPausesIff(s.flow, |NextFrame(s)|);
    } else {
      OthersKeepFlow(s, step);
    }
  }

  lemma BoundedFlow(s: Session)
    requires Bounded(s)
    ensures FlowValid(s.flow) && GateKnown(s) && Phased(s)
  {
  }

  lemma OthersKeepFlow(s: Session, step: Step)
    requires Enabled(s, step) && !step.Ack? && !step.Publish?
    ensures Next(s, step).flow == s.flow
  {
  }

  lemma {:induction false} PausedMeansBehind(ss: seq<Session>, steps: seq<Step>, i: nat)
    requires Run(ss, steps) && i < |ss|
    ensures Bounded(ss[i]) && PausedBehind(ss[i])
  {
    UnackedNeverExceeds(ss, steps, i);
    if i > 0 {
      PausedMeansBehind(ss, steps, i - 1);
      hide Next, Bounded;
      StepKeepsPausedBehind(ss[i - 1], steps[i - 1]);
    }
  }

  /** A pump blocked on a gate is let through exactly when that gate is not the current one, and it
      cannot be stuck there: with no more than the resume threshold unacknowledged it can wake, and an
      ack of everything always lets it. */
  lemma BlockedPumpWakes(ss: seq<Session>, steps: seq<Step>, i: nat)
    requires Run(ss, steps) && i < |ss| && ss[i].pump.Blocked?
    ensures Enabled(ss[i], Wake) <==> ss[i].flow.gate != Some(ss[i].pump.g)
    ensures ss[i].flow.unacked <= RESUME_BELOW ==> Enabled(ss[i], Wake)
    ensures Enabled(Next(ss[i], Ack(ss[i].flow.unacked)), Wake)
  {
    PausedMeansBehind(ss, steps, i);
    hide Run, Acked;
    AckResumesIff(ss[i].flow, ss[i].flow.unacked);
    AckKeepsBounded(ss[i], ss[i].flow.unacked);
  }

  /** Nothing else can stall a session: whoever holds the output lock can go on, and unless the pump has
      stopped, is blocked, or waits for that lock, it can. */
  lemma NobodyElseStalls(ss: seq<Session>, steps: seq<Step>, i: nat) returns (step: Step)
    requires Run(ss, steps) && i < |ss| && !ss[i].pump.Blocked? && ss[i].pump != Stopped
    ensures Enabled(ss[i], step) && !step.LinkChange? && !step.Ack? && !step.MonitorTick? && !step.ReadFailed?
  {
    UnackedNeverExceeds(ss, steps, i);
    hide Run;
    var s := ss[i];
    step := if s.lock != Free then
              (if s.pend != [] || (s.lock == ByPump && s.hand != []) then Publish(true) else Unlock)
            else if s.pump == AtWait then ConsultGate
            else if s.pump == Holding then EmitLock
            else Read([]);
  }

  /** Since the pump last read, it has found the gate open or been let through one. */
  predicate Gated(steps: seq<Step>, i: nat)
    requires i <= |steps|
  {
    exists k :: 0 <= k < i && (steps[k].ConsultGate? || steps[k].Wake?) && forall j :: k < j < i ==> !steps[j].Read?
  }

  /** Flow control is consulted before every read. */
  lemma {:induction false} EveryReadIsGated(ss: seq<Session>, steps: seq<Step>, i: nat)
    requires Run(ss, steps) && i < |ss| && ss[i].pump == Ready
    ensures Gated(steps, i)
  {
    var s, step := ss[i - 1], steps[i - 1];
    assert Enabled(s, step) && ss[i] == Next(s, step);
    hide Flush, Acked, Sent;
    if step.ConsultGate? || step.Wake? {
      assert steps[i - 1] == step;
    } else {
      assert s.pump == Ready && !step.Read?;
      EveryReadIsGated(ss, steps, i - 1);
      var k :| && 0 <= k < i - 1 && (steps[k].ConsultGate? || steps[k].Wake?)
               && forall j :: k < j < i - 1 ==> !steps[j].Read?;
      assert forall j :: k < j < i ==> !steps[j].Read?;
    }
  }

  /** Every frame sent fits on the wire, and none is empty. */
  ghost predicate FramesFit(log: seq<Event>) {
    forall e :: e in log && e.Data? ==> 0 < |e.frame| <= MAX_FRAME
  }

  lemma {:induction false} EveryFrameFits(ss: seq<Session>, steps: seq<Step>, i: nat)
    requires Run(ss, steps) && i < |ss|
    ensures FramesFit(ss[i].log)
  {
    hide Next, Enabled, FramesFit;
    if i == 0 {
      assert FramesFit([]) by { NoFrames(); }
    } else {
      EveryFrameFits(ss, steps, i - 1);
      StepLogs(ss[i - 1], steps[i - 1]);
      OneMoreFits(ss[i - 1].log, ss[i].log);
    }
  }

  lemma NoFrames()
    ensures FramesFit([])
  {
  }

  /** A step logs nothing, a gap, or one frame that fits. */
  ghost predicate LogsOne(log: seq<Event>, more: seq<Event>) {
    more == log || (exists e :: more == log + [e] && (e.Data? ==> 0 < |e.frame| <= MAX_FRAME))
  }

  lemma StepLogs(s: Session, step: Step)
    requires Enabled(s, step)
    ensures LogsOne(s.log, Next(s, step).log)
  {
    hide Sent, Acked;
  }

  lemma OneMoreFits(log: seq<Event>, more: seq<Event>)
    requires FramesFit(log) && LogsOne(log, more)
    ensures FramesFit(more)
  {
  }

  /** Nor does the holder of the lock keep it: every publish leaves less to publish, and one that fails
      gives up the rest of what it was publishing. */
  lemma PublishShrinks(s: Session, ok: bool)
    requires Enabled(s, Publish(ok))
    ensures var t := Next(s, Publish(ok));
            && |t.pend| + |t.hand| < |s.pend| + |s.hand| && t.lock == s.lock && t.out == s.out
            && (!ok ==> t == if s.pend != [] then s.(pend := []) else s.(hand := []))
  {
    hide Sent;
  }

  /** Once the link is back, a tick of the monitor is enough to get the ring out: with nobody publishing it
      can flush, what was buffered is then all pending, and the gap, if any, is announced first. */
  lemma TickFlushes(s: Session)
    requires Bounded(s) && Faithful(s) && s.link && s.lock == Free
    ensures var t := Next(s, MonitorTick);
            && Enabled(t, MonitorFlush)
            && var u := Next(t, MonitorFlush);
               && u.buf == [] && u.pend == s.buf && !u.dropped && u.lock == ByMonitor && u.hand == s.hand
               && u.log == if s.dropped then s.log + [Gap] else s.log
  {
    hide Explains, Reached;
  }

  /** Whether the last look at the link found it down: a look is taken by every emit and every tick, and a
      tick that finds it up shows when it flushes. */
  predicate SawDown(ss: seq<Session>, steps: seq<Step>, i: nat)
    requires |ss| == |steps| + 1 && i < |ss|
  {
    i > 0 && match steps[i - 1]
      case EmitLock => !ss[i - 1].link
      case MonitorTick => !ss[i - 1].link || SawDown(ss, steps, i - 1)
      case MonitorFlush => false
      case _ => SawDown(ss, steps, i - 1)
  }

  /** A session counts as disconnected exactly from a look that found the link down to one that found it up. */
  lemma {:induction false} DownIsWhatWasSeen(ss: seq<Session>, steps: seq<Step>, i: nat)
    requires Run(ss, steps) && i < |ss|
    ensures ss[i].down <==> SawDown(ss, steps, i)
  {
    hide Next, Enabled;
    if i > 0 {
      DownIsWhatWasSeen(ss, steps, i - 1);
      StepSeesDown(ss[i - 1], steps[i - 1]);
    }
  }

  lemma StepSeesDown(s: Session, step: Step)
    requires Enabled(s, step)
    ensures Next(s, step).down <==> match step
      case EmitLock => !s.link
      case MonitorTick => !s.link || s.down
      case MonitorFlush => false
      case _ => s.down
  {
    hide Sent, Acked;
  }

  // ---------------------------------------------------------------- what the console sees

  /** The log accounts for the first p bytes of the output: frames are consecutive pieces of it, and
      only at a gap event may the position jump ahead. */
  ghost predicate Explains(log: seq<Event>, out: Bytes, p: nat)
    decreases |log|
  {
    if log == [] then p == 0
    else
      var front := log[..|log| - 1];
      match log[|log| - 1]
      case Data(frame) => |frame| <= p <= |out| && out[p - |frame|..p] == frame && Explains(front, out, p - |frame|)
      case Gap => p <= |out| && exists q: nat :: q <= p && Explains(front, out, q)
  }

  lemma {:induction false} ExplainsExtends(log: seq<Event>, out: Bytes, more: Bytes, p: nat)
    requires Explains(log, out, p)
    ensures Explains(log, out + more, p)
    decreases |log|
  {
    if log != [] {
      var front := log[..|log| - 1];
      match log[|log| - 1]
      case Data(frame) =>
        ExplainsExtends(front, out, more, p - |frame|);
        assert (out + more)[p - |frame|..p] == out[p - |frame|..p];
      case Gap =>
        var q: nat :| q <= p && Explains(front, out, q);
        ExplainsExtends(front, out, more, q);
    }
  }

  /** Bytes read and not yet published. */
  function Owed(s: Session): Bytes { s.pend + s.buf + s.hand }

  /** The log has got to p: right up to what is owed, or, while dropped bytes have not been
      announced, somewhere before it. */
  predicate Reached(out: Bytes, owed: Bytes, dropped: bool, p: nat) {
    var k := |out| - |owed|;
    0 <= k && out[k..] == owed && (if dropped then p <= k else p == k)
  }

  lemma ReachedAppend(out: Bytes, owed: Bytes, dropped: bool, p: nat, data: Bytes)
    requires Reached(out, owed, dropped, p)
    ensures Reached(out + data, owed + data, dropped, p)
  {
    var k := |out| - |owed|;
    assert (out + data)[k..] == out[k..] + data;
  }

  lemma ReachedDrop(out: Bytes, owed: Bytes, dropped: bool, p: nat, n: nat)
    requires Reached(out, owed, dropped, p) && n <= |owed|
    ensures Reached(out, owed[n..], true, p)
    ensures !dropped ==> Reached(out, owed[n..], false, p + n) && out[p..p + n] == owed[..n]
  {
    var k := |out| - |owed|;
    assert forall i :: 0 <= i < |owed| ==> owed[i] == out[k + i];
  }

  /** The log explains the output up to what is owed; a ring that is not empty, or has dropped
      bytes, belongs to a recorded disconnect. */
  ghost predicate Faithful(s: Session) {
    && (s.buf != [] || s.dropped ==> s.down && s.pend == [] && s.lock != ByPump)
    && exists p: nat :: Explains(s.log, s.out, p) && Reached(s.out, Owed(s), s.dropped, p)
  }

  lemma ReadAppends(s: Session, data: Bytes)
    requires s.hand == [] && Enabled(s, Read(data))
    ensures var t := Next(s, Read(data));
            && t.out == s.out + data && Owed(t) == Owed(s) + data && t.log == s.log
            && t.buf == s.buf && t.dropped == s.dropped && t.down == s.down && t.pend == s.pend && t.lock == s.lock
  {
  }

  lemma ReadKeepsFaithful(s: Session, data: Bytes)
    requires Faithful(s) && s.hand == [] && Enabled(s, Read(data))
    ensures Faithful(Next(s, Read(data)))
  {
    hide Explains, Reached, Next, Owed;
    var p: nat :| Explains(s.log, s.out, p) && Reached(s.out, Owed(s), s.dropped, p);
    ReadAppends(s, data);
    ExplainsExtends(s.log, s.out, data, p);
    ReachedAppend(s.out, Owed(s), s.dropped, p, data);
  }

  /** Buffering keeps a suffix of what is owed, and flags every byte it drops. */
  lemma BufferKeepsASuffix(s: Session)
    requires s.pump == Holding && s.lock == Free && !s.link && s.pend == [] && |s.buf| <= RING_BYTES
    ensures var t := Next(s, EmitLock);
            && |Owed(t)| <= |Owed(s)| && Owed(t) == Owed(s)[|Owed(s)| - |Owed(t)|..]
            && (!t.dropped ==> Owed(t) == Owed(s) && !s.dropped)
            && t.out == s.out && t.log == s.log && t.down && t.pend == [] && t.lock == Free
  {
    var t := Next(s, EmitLock);
    var all := s.buf + s.hand;
    OwedWhenNonePending(s);
    OwedWhenNonePending(t);
    hide Owed;
    assert t.buf + t.hand == t.buf == LastN(all, RING_BYTES);
  }

  lemma OwedWhenNonePending(s: Session)
    requires s.pend == []
    ensures Owed(s) == s.buf + s.hand
  {
  }

  lemma BufferKeepsFaithful(s: Session)
    requires Faithful(s) && Phased(s) && Enabled(s, EmitLock) && !s.link
    ensures Faithful(Next(s, EmitLock))
  {
    hide Explains, Reached, Next, Owed;
    var t := Next(s, EmitLock);
    var p: nat :| Explains(s.log, s.out, p) && Reached(s.out, Owed(s), s.dropped, p);
    BufferKeepsASuffix(s);
    ReachedDrop(s.out, Owed(s), s.dropped, p, |Owed(s)| - |Owed(t)|);
  }

  lemma FlushKeepsOwed(s: Session)
    requires s.pend == [] && (s.buf != [] || s.dropped ==> s.down)
    ensures var t := Flush(s);
            && Owed(t) == Owed(s) && t.out == s.out && !t.dropped && t.buf == []
            && t.log == if s.dropped then s.log + [Gap] else s.log
  {
  }

  lemma FlushKeepsFaithful(s: Session, t: Session)
    requires Faithful(s) && Phased(s) && s.lock == Free
    requires Flush(s) == t.(lock := s.lock, pump := s.pump, wantsFlush := s.wantsFlush)
    ensures Faithful(t)
  {
    hide Explains, Flush;
    var p: nat :| Explains(s.log, s.out, p) && Reached(s.out, Owed(s), s.dropped, p);
    FlushKeepsOwed(s);
    assert Owed(t) == Owed(Flush(s));
    var q := |s.out| - |Owed(s)|;
    hide Owed;
    if s.dropped {
      ExplainsGap(s.log, s.out, p, q);
    }
    assert Explains(t.log, t.out, q) && Reached(t.out, Owed(t), t.dropped, q);
  }

  lemma ExplainsGap(log: seq<Event>, out: Bytes, p: nat, q: nat)
    requires Explains(log, out, p) && p <= q <= |out|
    ensures Explains(log + [Gap], out, q)
  {
    assert (log + [Gap])[..|log + [Gap]| - 1] == log;
  }

  lemma ExplainsFrame(log: seq<Event>, out: Bytes, p: nat, frame: Bytes)
    requires Explains(log, out, p) && p + |frame| <= |out| && out[p..p + |frame|] == frame
    ensures Explains(log + [Data(frame)], out, p + |frame|)
  {
    assert (log + [Data(frame)])[..|log + [Data(frame)]| - 1] == log;
  }

  /** A published frame comes off the front of what is owed. */
  lemma PublishTakesTheFront(s: Session)
    requires Enabled(s, Publish(true)) && (s.pend == [] ==> s.buf == [])
    ensures var t := Next(s, Publish(true));
            && |NextFrame(s)| <= |Owed(s)|
            && Owed(s)[..|NextFrame(s)|] == NextFrame(s) && Owed(s)[|NextFrame(s)|..] == Owed(t)
            && t.log == s.log + [Data(NextFrame(s))] && t.out == s.out && t.dropped == s.dropped
            && t.buf == s.buf && t.lock == s.lock && t.down == s.down && (s.pend == [] ==> t.pend == [])
  {
    hide Next, Enabled, FrameOf;
    PublishOneIs(s);
    var t := Next(s, Publish(true));
    if s.pend != [] {
      FrontOf(s.pend, s.buf + s.hand);
      assert Owed(s) == s.pend + (s.buf + s.hand) && Owed(t) == t.pend + (s.buf + s.hand);
    } else {
      FrontOf(s.hand, []);
      assert Owed(s) == s.hand == s.hand + [] && Owed(t) == t.hand == t.hand + [];
    }
  }

  /** One frame goes out, of what was pending or, with nothing pending, of what was read. */
  lemma PublishOneIs(s: Session)
    requires Enabled(s, Publish(true))
    ensures var t, n := Next(s, Publish(true)), |NextFrame(s)|;
            && n <= |if s.pend != [] then s.pend else s.hand|
            && t.pend == (if s.pend != [] then s.pend[n..] else [])
            && t.hand == (if s.pend != [] then s.hand else s.hand[n..])
            && t.log == s.log + [Data(NextFrame(s))] && t.out == s.out && t.dropped == s.dropped
            && t.buf == s.buf && t.lock == s.lock && t.down == s.down
  {
    hide Sent;
  }

  lemma FrontOf(data: Bytes, more: Bytes)
    ensures var n := |FrameOf(data)|;
            n <= |data| && (data + more)[..n] == FrameOf(data) && (data + more)[n..] == data[n..] + more
  {
  }

  lemma PublishKeepsFaithful(s: Session)
    requires Faithful(s) && Phased(s) && Enabled(s, Publish(true))
    ensures Faithful(Next(s, Publish(true)))
  {
    hide Explains, Reached, Next, Owed, NextFrame;
    var p: nat :| Explains(s.log, s.out, p) && Reached(s.out, Owed(s), s.dropped, p);
    PublishTakesTheFront(s);
    ReachedDrop(s.out, Owed(s), s.dropped, p, |NextFrame(s)|);
    ExplainsFrame(s.log, s.out, p, NextFrame(s));
  }

  lemma QuietStepKeepsFaithful(s: Session, t: Session)
    requires Faithful(s)
    requires t.buf == s.buf && t.dropped == s.dropped && t.pend == s.pend && t.hand == s.hand
    requires t.out == s.out && t.log == s.log
    requires (s.down ==> t.down) && (t.lock == ByPump ==> s.lock == ByPump)
    ensures Faithful(t)
  {
    assert Owed(t) == Owed(s);
  }

  lemma StepKeepsFaithful(s: Session, step: Step)
    requires Faithful(s) && Bounded(s) && Enabled(s, step)
    requires step.Publish? ==> step.ok
    ensures Faithful(Next(s, step))
  {
    var t := Next(s, step);
    hide Faithful;
    match step {
      case Read(data) => ReadKeepsFaithful(s, data);
      case EmitLock => if !s.link { BufferKeepsFaithful(s); } else { FlushKeepsFaithful(s, t); }
      case MonitorFlush => FlushKeepsFaithful(s, t);
      case Publish(_) => PublishKeepsFaithful(s);
      case _ => QuietStepKeepsFaithful(s, t);
    }
  }

  /** While publishes succeed, what the console receives is the terminal's output in order, with
      whole pieces missing only where a gap event stands, and nothing is missing but what the ring
      dropped: once nothing is pending or buffered, the log reaches the end of the output. */
  lemma {:induction false} ConsoleSeesTheOutput(ss: seq<Session>, steps: seq<Step>, i: nat)
    requires Run(ss, steps) && i < |ss|
    requires forall k :: 0 <= k < i && steps[k].Publish? ==> steps[k].ok
    ensures Faithful(ss[i])
    ensures Owed(ss[i]) == [] && !ss[i].dropped ==> Explains(ss[i].log, ss[i].out, |ss[i].out|)
  {
    if i == 0 {
      FreshIsFaithful();
    } else {
      hide Next, Bounded, Enabled, Faithful, Explains, Owed;
      ConsoleSeesTheOutput(ss, steps, i - 1);
      UnackedNeverExceeds(ss, steps, i - 1);
      StepKeepsFaithful(ss[i - 1], steps[i - 1]);
    }
    CaughtUp(ss[i]);
  }

  lemma FreshIsFaithful()
    ensures Faithful(INITIAL)
  {
    assert Explains([], [], 0) && Reached([], [], false, 0);
  }

  lemma CaughtUp(s: Session)
    requires Faithful(s)
    ensures Owed(s) == [] && !s.dropped ==> Explains(s.log, s.out, |s.out|)
  {
    hide Explains;
  }

  function Published(log: seq<Event>): (r: Bytes)
    decreases |log|
  {
    if log == [] then []
    else Published(log[..|log| - 1]) + (match log[|log| - 1] case Data(frame) => frame case Gap => [])
  }

  /** A log without a gap event is the output itself, up to the position it has reached. */
  lemma {:induction false} NoGapMeansNothingLost(log: seq<Event>, out: Bytes, p: nat)
    requires Explains(log, out, p)
    requires forall i :: 0 <= i < |log| ==> log[i].Data?
    ensures p <= |out| && Published(log) == out[..p]
    decreases |log|
  {
    if log != [] {
      var frame := log[|log| - 1].frame;
      var q := p - |frame|;
      assert Explains(log[..|log| - 1], out, q) && p <= |out| && out[q..p] == frame;
      hide Explains;
      NoGapMeansNothingLost(log[..|log| - 1], out, q);
      assert out[..p] == out[..q] + out[q..p];
    }
  }
}
