/**
 Who writes to a job's sink and when: two pumps that read the job's pipes, and the runner that waits
 for the child, gives the pumps a bounded moment, and then closes both streams. One step is one read,
 one call of the sink, or one choice of the runner; the child, the pipes and the clock may do anything.
 */
module ScriptRunner {
  import opened Basics
  import opened ChunkSink

  const MAX_CHUNK: nat := 256 * 1024
  const CAP: nat := 8 * 1024 * 1024

  /** A pump: not started, reading, holding what a read returned (and whether the read also ended the
      stream), or done. */
  datatype Pump = Absent | Reading | Holding(p: Bytes, last: bool) | Done

  /** The runner: before the child runs, waiting for it, choosing between drained and the timer, about to
      stop the sink, back in Run, one stream closed, both closed. */
  datatype Phase = Starting | Waiting | Draining | Stopping | Reporting | Closing | Finished

  /** calls is every call of the sink so far, in order. */
  datatype World = World(phase: Phase, stdout: Pump, stderr: Pump, calls: seq<Event>)

  const START := World(Starting, Absent, Absent, [])

  datatype Step =
    | Abort(p: Bytes)
    | Launch
    | Read(stream: Stream, p: Bytes, last: bool)
    | WriteOut(stream: Stream)
    | ChildExits
    | Drained
    | TimesOut
    | StopSink
    | CloseOne
    | CloseOther

  function PumpOf(w: World, stream: Stream): Pump {
    if stream == Stdout then w.stdout else w.stderr
  }

  function WithPump(w: World, stream: Stream, pump: Pump): World {
    if stream == Stdout then w.(stdout := pump) else w.(stderr := pump)
  }

  predicate Over(pump: Pump) { pump.Absent? || pump.Done? }

  predicate Enabled(w: World, step: Step) {
    match step
    case Abort(_) => w.phase == Starting
    case Launch => w.phase == Starting
    case Read(stream, _, _) => PumpOf(w, stream) == Reading
    case WriteOut(stream) => PumpOf(w, stream).Holding?
    case ChildExits => w.phase == Waiting
    case Drained => w.phase == Draining && w.stdout.Done? && w.stderr.Done?
    case TimesOut => w.phase == Draining
    case StopSink => w.phase == Stopping
    case CloseOne => w.phase == Reporting
    case CloseOther => w.phase == Closing
  }

  function Call(w: World, e: Event): World { w.(calls := w.calls + [e]) }

  function Next(w: World, step: Step): World
    requires Enabled(w, step)
  {
    match step
    case Abort(p) => Call(w, Data(Stderr, p)).(phase := Reporting)
    case Launch => w.(phase := Waiting, stdout := Reading, stderr := Reading)
    case Read(stream, p, last) =>
      WithPump(w, stream, if p != [] then Holding(p, last) else if last then Done else Reading)
    case WriteOut(stream) =>
      var h := PumpOf(w, stream);
      WithPump(Call(w, Data(stream, h.p)), stream, if h.last then Done else Reading)
    case ChildExits => w.(phase := Draining)
    case Drained => w.(phase := Reporting)
    case TimesOut => w.(phase := Stopping)
    case StopSink => Call(w, Halt).(phase := Reporting)
    case CloseOne => Call(w, Close(Stdout)).(phase := Closing)
    case CloseOther => Call(w, Close(Stderr)).(phase := Finished)
  }

  predicate Run(ws: seq<World>, steps: seq<Step>) {
    && |ws| == |steps| + 1 && ws[0] == START
    && forall i :: 0 <= i < |steps| ==> Enabled(ws[i], steps[i]) && ws[i + 1] == Next(ws[i], steps[i])
  }

  /** The sink after these calls, when the chunks numbered in lost could not be emitted. */
  function SinkOf(w: World, lost: set<nat>): Sink { After(New(MAX_CHUNK, CAP), w.calls, lost) }

  // ---------------------------------------------------------------- what every step keeps

  /** The streams closed, in order. */
  function Ends(es: seq<Event>): (r: seq<Stream>) {
    if es == [] then []
    else Ends(es[..|es| - 1]) + if es[|es| - 1].Close? then [es[|es| - 1].stream] else []
  }

  function EndsIn(phase: Phase): seq<Stream> {
    if phase == Finished then [Stdout, Stderr] else if phase == Closing then [Stdout] else []
  }

  /** While a pump may still write, every close so far came after a stop. */
  predicate Guarded(es: seq<Event>) {
    forall i :: 0 <= i < |es| && es[i].Close? ==> Halt in es[..i]
  }

  predicate Inv(w: World) {
    && (w.phase == Starting ==> w.stdout.Absent? && w.stderr.Absent?)
    && (w.phase in {Reporting, Closing, Finished} ==> Halt in w.calls || (Over(w.stdout) && Over(w.stderr)))
    && Ends(w.calls) == EndsIn(w.phase)
    && Orderly(w.calls)
    && (Guarded(w.calls) || (Over(w.stdout) && Over(w.stderr)))
  }

  lemma {:induction false} NoEnds(es: seq<Event>)
    requires Ends(es) == []
    ensures forall i :: 0 <= i < |es| ==> !es[i].Close?
  {
    if es != [] {
      NoEnds(es[..|es| - 1]);
    }
  }

  lemma EndsSnoc(es: seq<Event>, e: Event)
    ensures Ends(es + [e]) == Ends(es) + if e.Close? then [e.stream] else []
  {
    assert (es + [e])[..|es|] == es;
  }

  /** A write by a pump, or by an abort: every close before it came after a stop. */
  lemma DataKeepsOrder(es: seq<Event>, e: Event)
    requires Orderly(es) && Guarded(es) && !e.Close?
    ensures Orderly(es + [e]) && Guarded(es + [e])
  {
    var more := es + [e];
    assert forall i :: 0 <= i < |es| ==> more[i] == es[i] && more[..i] == es[..i];
  }

  lemma CloseKeepsOrder(es: seq<Event>, e: Event)
    requires Orderly(es) && e.Close?
    ensures Orderly(es + [e]) && (Guarded(es) && Halt in es ==> Guarded(es + [e]))
  {
    var more := es + [e];
    assert forall i :: 0 <= i < |es| ==> more[i] == es[i] && more[..i] == es[..i];
    assert more[..|es|] == es;
  }

  lemma StepKeepsInv(w: World, step: Step)
    requires Inv(w) && Enabled(w, step)
    ensures Inv(Next(w, step))
  {
    hide Orderly, Guarded, Ends;
    var t := Next(w, step);
    if step.Launch? {
      WritersAreGuarded(w, step);
    }
    if t.calls != w.calls {
      var e := t.calls[|w.calls|];
      assert t.calls == w.calls + [e];
      EndsSnoc(w.calls, e);
      if e.Close? {
        CloseKeepsOrder(w.calls, e);
      } else {
        WritersAreGuarded(w, step);
        DataKeepsOrder(w.calls, e);
      }
    }
  }

  /** Whoever is about to start writing, write or stop finds the closes guarded. */
  lemma WritersAreGuarded(w: World, step: Step)
    requires Inv(w) && Enabled(w, step) && (step.Abort? || step.Launch? || step.WriteOut? || step.StopSink?)
    ensures Guarded(w.calls)
  {
    if Ends(w.calls) == [] {
      NoEnds(w.calls);
    }
  }

  lemma {:induction false} RunKeepsInv(ws: seq<World>, steps: seq<Step>, j: nat)
    requires Run(ws, steps) && j < |ws|
    ensures Inv(ws[j])
  {
    hide Inv, Next, Enabled;
    if j == 0 {
      StartIsInv();
    } else {
      RunKeepsInv(ws, steps, j - 1);
      StepKeepsInv(ws[j - 1], steps[j - 1]);
    }
  }

  lemma StartIsInv()
    ensures Inv(START)
  {
  }

  // ---------------------------------------------------------------- nothing read is dropped

  /** What the pumps have read of a stream; what an abort says counts as read. */
  function ReadFrom(steps: seq<Step>, stream: Stream): Bytes {
    if steps == [] then []
    else
      ReadFrom(steps[..|steps| - 1], stream) + match steps[|steps| - 1]
      case Read(from, p, _) => if from == stream then p else []
      case Abort(p) => if stream == Stderr then p else []
      case _ => []
  }

  /** A read of this stream has ended it. */
  predicate Ended(steps: seq<Step>, stream: Stream) {
    exists k :: 0 <= k < |steps| && steps[k].Read? && steps[k].stream == stream && steps[k].last
  }

  /** What the sink was told of a stream. */
  function ToldOf(es: seq<Event>, stream: Stream): Bytes {
    if es == [] then []
    else
      var e := es[|es| - 1];
      ToldOf(es[..|es| - 1], stream) + if e.Data? && e.stream == stream then e.p else []
  }

  function Held(pump: Pump): Bytes { if pump.Holding? then pump.p else [] }

  predicate AtEnd(pump: Pump) { pump.Done? || (pump.Holding? && pump.last) }

  lemma ToldSnoc(es: seq<Event>, e: Event, stream: Stream)
    ensures ToldOf(es + [e], stream) == ToldOf(es, stream) + if e.Data? && e.stream == stream then e.p else []
  {
    assert (es + [e])[..|es|] == es;
  }

  /** A step on one stream: what it reads is held, what is held goes to the sink, and the pump is done once
      the read that ended the stream has. */
  lemma StepTellsWhatItHeld(w: World, step: Step, stream: Stream)
    requires Enabled(w, step) && (w.phase == Starting ==> w.stdout.Absent? && w.stderr.Absent?)
    ensures var t, got := Next(w, step), ReadFrom([step], stream);
            && ToldOf(t.calls, stream) + Held(PumpOf(t, stream)) ==
               ToldOf(w.calls, stream) + Held(PumpOf(w, stream)) + got
            && (AtEnd(PumpOf(t, stream)) <==> AtEnd(PumpOf(w, stream)) || Ended([step], stream))
  {
    hide ToldOf;
    var t := Next(w, step);
    assert [step][..0] == [] && ReadFrom([], stream) == [];
    assert Ended([step], stream) <==> step.Read? && step.stream == stream && step.last by {
      assert [step][0] == step;
    }
    if t.calls != w.calls {
      ToldSnoc(w.calls, t.calls[|w.calls|], stream);
    }
  }

  /** In every run: the bytes read of a stream are those the sink was told, in order, and then what its pump
      still holds; and its pump stops exactly when a read has ended the stream. */
  lemma {:induction false} ReadIsToldOrHeld(ws: seq<World>, steps: seq<Step>, j: nat, stream: Stream)
    requires Run(ws, steps) && j < |ws|
    ensures ReadFrom(steps[..j], stream) == ToldOf(ws[j].calls, stream) + Held(PumpOf(ws[j], stream))
    ensures AtEnd(PumpOf(ws[j], stream)) <==> Ended(steps[..j], stream)
  {
    hide Next, Enabled, ToldOf, PumpOf, Held, AtEnd, ReadFrom, Ended, Inv;
    if j == 0 {
      NothingReadYet(stream);
    } else {
      var front, step := steps[..j - 1], steps[j - 1];
      ReadIsToldOrHeld(ws, steps, j - 1, stream);
      RunKeepsInv(ws, steps, j - 1);
      NoPumpsYet(ws[j - 1]);
      StepTellsWhatItHeld(ws[j - 1], step, stream);
      assert steps[..j] == front + [step];
      ReadSnoc(front, step, stream);
    }
  }

  lemma NothingReadYet(stream: Stream)
    ensures ReadFrom([], stream) == ToldOf(START.calls, stream) + Held(PumpOf(START, stream))
    ensures !AtEnd(PumpOf(START, stream)) && !Ended([], stream)
  {
  }

  lemma NoPumpsYet(w: World)
    requires Inv(w)
    ensures w.phase == Starting ==> w.stdout.Absent? && w.stderr.Absent?
  {
    hide Orderly, Guarded, Ends;
  }

  lemma ReadSnoc(steps: seq<Step>, step: Step, stream: Stream)
    ensures ReadFrom(steps + [step], stream) == ReadFrom(steps, stream) + ReadFrom([step], stream)
    ensures Ended(steps + [step], stream) <==> Ended(steps, stream) || Ended([step], stream)
  {
    var more := steps + [step];
    assert more[..|steps|] == steps && more[|steps|] == step;
    assert [step][..0] == [] && ReadFrom([], stream) == [];
    if Ended([step], stream) {
      assert [step][0] == step && more[|steps|].Read?;
    }
    if Ended(steps, stream) {
      var k :| 0 <= k < |steps| && steps[k].Read? && steps[k].stream == stream && steps[k].last;
      assert more[k] == steps[k];
    }
  }

  /** A job that was not cut off by the timer has told the sink everything that was read. */
  lemma DrainedJobToldEverything(ws: seq<World>, steps: seq<Step>, j: nat, stream: Stream)
    requires Run(ws, steps) && j < |ws| && ws[j].phase in {Reporting, Closing, Finished} && Halt !in ws[j].calls
    ensures ToldOf(ws[j].calls, stream) == ReadFrom(steps[..j], stream)
  {
    RunKeepsInv(ws, steps, j);
    ReadIsToldOrHeld(ws, steps, j, stream);
    hide Run, ToldOf;
  }

  // ---------------------------------------------------------------- what that means

  /** However reads, writes, the child's exit, the timer and the closes interleave, whichever emits fail,
      and whatever a blocked pump still writes afterwards: no data chunk follows an end-of-stream
      marker. */
  lemma NoDataAfterTheEndInAnyRun(ws: seq<World>, steps: seq<Step>, j: nat, lost: set<nat>)
    requires Run(ws, steps) && j < |ws|
    ensures Orderly(ws[j].calls) && EndsAreLast(SinkOf(ws[j], lost).out)
  {
    RunKeepsInv(ws, steps, j);
    hide Run, Orderly, After;
    NoDataAfterTheEnd(MAX_CHUNK, CAP, ws[j].calls, lost);
  }

  /** The streams of the markers among these chunks. */
  function Markers(out: seq<Chunk>): (r: seq<Stream>) {
    if out == [] then []
    else Markers(out[..|out| - 1]) + if out[|out| - 1].eof then [out[|out| - 1].stream] else []
  }

  lemma MarkersSnoc(out: seq<Chunk>, c: Chunk)
    ensures Markers(out + [c]) == Markers(out) + if c.eof then [c.stream] else []
  {
    assert (out + [c])[..|out|] == out;
  }

  lemma {:induction false} SendAllAddsNoMarker(s: Sink, stream: Stream, p: Bytes)
    requires s.maxChunk > 0
    ensures Markers(SendAll(s, stream, p, {}).out) == Markers(s.out)
    decreases |p|
  {
    hide Markers;
    if p != [] {
      var n := Min(|p|, s.maxChunk);
      var t := Send(s, stream, p[..n], false, {});
      MarkersSnoc(s.out, Chunk(stream, s.num + 1, p[..n], false));
      SendAllAddsNoMarker(t.(written := t.written + n), stream, p[n..]);
    }
  }

  lemma {:induction false} MarkersAreEnds(es: seq<Event>)
    ensures Markers(After(New(MAX_CHUNK, CAP), es, {}).out) == Ends(es)
  {
    if es != [] {
      var front, e := es[..|es| - 1], es[|es| - 1];
      MarkersAreEnds(front);
      var s := After(New(MAX_CHUNK, CAP), front, {});
      hide Markers;
      match e
      case Data(stream, p) =>
        if !(p == [] || s.truncated || s.stopped) {
          SendAllAddsNoMarker(s.(truncated := |p| > s.cap - s.written), stream, Fit(s, p));
        }
      case Close(stream) => MarkersSnoc(s.out, Chunk(stream, s.num + 1, [], true));
      case Halt =>
    }
  }

  /** When the runner is through, with emits succeeding: the server has the first bytes of what was
      written up to the cap, in order and numbered from 1, then one marker for stdout and one for stderr,
      and nothing after them. */
  lemma FinishedJobIsWhole(ws: seq<World>, steps: seq<Step>, j: nat)
    requires Run(ws, steps) && j < |ws| && ws[j].phase == Finished
    ensures var s := SinkOf(ws[j], {});
            && s.cap == CAP && Delivered(s, Written(ws[j].calls))
            && Markers(s.out) == [Stdout, Stderr] && EndsAreLast(s.out)
  {
    RunKeepsInv(ws, steps, j);
    NoDataAfterTheEndInAnyRun(ws, steps, j, {});
    hide Run, After, Delivered, EndsAreLast;
    MarkersAreEnds(ws[j].calls);
    OutputReassembles(MAX_CHUNK, CAP, ws[j].calls);
  }
}
