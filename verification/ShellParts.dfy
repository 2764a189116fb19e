/**
 The two small machines inside a shell session: the byte counter that pauses terminal reads, and
 the drop-oldest buffer that holds output while the link is down.
 */
module ShellParts {
  import opened Basics

  const MAX_FRAME := 32 * 1024
  const PAUSE_ABOVE := 512 * 1024
  const RESUME_BELOW := 256 * 1024
  const RING_BYTES := 256 * 1024

  // ---------------------------------------------------------------- flow control

  /** Bytes published and not acknowledged. A gate is the channel a paused reader waits on; each
      pause makes a new one, and resuming closes it. */
  datatype Flow = Flow(unacked: int, paused: bool, gate: Option<nat>, nextGate: nat, closed: set<nat>)

  function Sent(f: Flow, n: nat): (r: Flow) {
    var f1 := f.(unacked := f.unacked + n);
    if !f1.paused && f1.unacked > PAUSE_ABOVE
    then f1.(paused := true, gate := Some(f1.nextGate), nextGate := f1.nextGate + 1)
    else f1
  }

  function Acked(f: Flow, n: int): (r: Flow) {
    if n <= 0 then f
    else
      var f1 := f.(unacked := if f.unacked - n < 0 then 0 else f.unacked - n);
      if f1.paused && f1.unacked <= RESUME_BELOW && f1.gate.Some?
      then f1.(paused := false, gate := None, closed := f1.closed + {f1.gate.value})
      else f1
  }

  /** Paused exactly while a gate is open, that gate is not a closed one, and an unpaused session is
      at most the pause threshold behind. */
  predicate FlowValid(f: Flow) {
    && f.unacked >= 0
    && (f.paused <==> f.gate.Some?)
    && (f.gate.Some? ==> f.gate.value < f.nextGate && f.gate.value !in f.closed)
    && (forall g :: g in f.closed ==> g < f.nextGate)
    && (!f.paused ==> f.unacked <= PAUSE_ABOVE)
  }

  /** Sending pauses exactly when it leaves more than the pause threshold unacknowledged. */
  lemma SentPausesIff(f: Flow, n: nat)
    requires FlowValid(f)
    ensures var t := Sent(f, n);
            && FlowValid(t) && t.unacked == f.unacked + n && t.closed == f.closed
            && (t.paused <==> f.paused || f.unacked + n > PAUSE_ABOVE)
            && (f.gate.Some? ==> t.gate == f.gate)
  {
  }

  /** An ack takes off what it names, and resumes a paused session exactly when no more than the resume
      threshold is left; whoever waits on the gate is then let through. */
  lemma AckResumesIff(f: Flow, n: int)
    requires FlowValid(f)
    ensures var t := Acked(f, n);
            && FlowValid(t) && t.unacked == (if n <= 0 then f.unacked else if f.unacked < n then 0 else f.unacked - n)
            && (t.paused <==> f.paused && (n <= 0 || f.unacked - n > RESUME_BELOW))
            && (f.paused && !t.paused ==> f.gate.value in t.closed)
  {
  }

  class FlowController {
    var unacked: int
    var paused: bool
    var gate: Option<nat>
    var nextGate: nat
    ghost var closed: set<nat>

    ghost function Fields(): Flow
      reads this
    {
      Flow(unacked, paused, gate, nextGate, closed)
    }

    constructor ()
      ensures FlowValid(Fields()) && unacked == 0 && !paused
    {
      unacked, paused, gate, nextGate, closed := 0, false, None, 0, {};
    }

    method RecordSent(n: nat) returns (nowPaused: bool)
      requires FlowValid(Fields())
      modifies this
      ensures Fields() == Sent(old(Fields()), n) && nowPaused == paused
      ensures paused <==> old(paused) || old(unacked) + n > PAUSE_ABOVE
      ensures FlowValid(Fields())
    {
      unacked := unacked + n;
      if !paused && unacked > PAUSE_ABOVE {
        paused := true;
        gate := Some(nextGate);
        nextGate := nextGate + 1;
      }
      return paused;
    }

    method RecordAck(n: int) returns (resumed: bool)
      requires FlowValid(Fields())
      modifies this
      ensures Fields() == Acked(old(Fields()), n)
      ensures resumed <==> old(paused) && n > 0 && old(unacked) - n <= RESUME_BELOW
      ensures resumed <==> old(paused) && !paused
      ensures FlowValid(Fields())
    {
      if n <= 0 {
        return false;
      }
      unacked := unacked - n;
      if unacked < 0 {
        unacked := 0;
      }
      if paused && unacked <= RESUME_BELOW {
        paused := false;
        closed := closed + {gate.value};
        gate := None;
        return true;
      }
      return false;
    }
  }

  // ---------------------------------------------------------------- the ring

  lemma LastNOfLong(a: Bytes, b: Bytes, n: nat)
    requires |b| >= n
    ensures LastN(a + b, n) == b[|b| - n..]
  {
  }

  class Ring {
    const max: nat
    var buf: Bytes
    var dropped: bool

    constructor (max: nat)
      ensures this.max == max && buf == [] && !dropped
    {
      this.max := max;
      buf, dropped := [], false;
    }

    /** Keeps the longest suffix of everything written that fits. The flag is raised when a byte is
        lost, and in one more case: a write of exactly the capacity into an empty ring. */
    method Write(p: Bytes)
      requires |buf| <= max
      modifies this
      ensures buf == LastN(old(buf) + p, max) && |buf| <= max
      ensures dropped <==> old(dropped) || (p != [] && (|old(buf)| + |p| > max || (|p| == max && old(buf) == [])))
    {
      if |p| == 0 {
        assert buf + p == buf;
        return;
      }
      if |p| >= max {
        LastNOfLong(buf, p, max);
        buf := p[|p| - max..];
        dropped := true;
        return;
      }
      buf := buf + p;
      var over := |buf| - max;
      if over > 0 {
        buf := buf[over..];
        dropped := true;
      }
    }

    method Drain() returns (out: Bytes, lost: bool)
      modifies this
      ensures out == old(buf) && lost == old(dropped)
      ensures buf == [] && !dropped
    {
      out, lost := buf, dropped;
      buf, dropped := [], false;
    }
  }

  // ---------------------------------------------------------------- framing

  function Flatten(frames: seq<Bytes>): (r: Bytes) {
    if frames == [] then [] else Flatten(frames[..|frames| - 1]) + frames[|frames| - 1]
  }

  lemma FlattenSnoc(frames: seq<Bytes>, frame: Bytes)
    ensures Flatten(frames + [frame]) == Flatten(frames) + frame
  {
    assert (frames + [frame])[..|frames|] == frames;
  }

  /** publishFrames: raw frames of at most 32 KiB, each counted against the flow as it goes out.
      It stops at the first publish that fails; `accepted` is how many would succeed. */
  method PublishFrames(data: Bytes, accepted: nat, flow: FlowController) returns (frames: seq<Bytes>, ok: bool)
    requires FlowValid(flow.Fields())
    modifies flow
    ensures FlowValid(flow.Fields())
    ensures forall f :: f in frames ==> 0 < |f| <= MAX_FRAME
    ensures Flatten(frames) <= data && (ok ==> Flatten(frames) == data)
    ensures !ok ==> |frames| == accepted
    ensures flow.unacked == old(flow.unacked) + |Flatten(frames)|
  {
    frames := [];
    var sent := 0;
    while sent < |data|
      invariant 0 <= sent <= |data| && Flatten(frames) == data[..sent]
      invariant FlowValid(flow.Fields()) && flow.unacked == old(flow.unacked) + sent
      invariant forall f :: f in frames ==> 0 < |f| <= MAX_FRAME
      invariant |frames| <= accepted
    {
      if |frames| >= accepted {
        return frames, false;
      }
      var n := if |data| - sent < MAX_FRAME then |data| - sent else MAX_FRAME;
      var frame := data[sent..sent + n];
      FlattenSnoc(frames, frame);
      assert data[..sent + n] == data[..sent] + frame;
      frames := frames + [frame];
      var _ := flow.RecordSent(n);
      sent := sent + n;
    }
    assert data[..sent] == data;
    return frames, true;
  }
}
