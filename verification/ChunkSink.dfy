/**
 Framing of a job's output: both streams cut into numbered chunks up to a cap, and closed by an
 end-of-stream marker each.
 */
module ChunkSink {
  import opened Basics

  datatype Stream = Stdout | Stderr

  datatype Chunk = Chunk(stream: Stream, num: nat, data: Bytes, eof: bool)

  /** The sink's fields, and the chunks that got out. */
  datatype Sink = Sink(
    maxChunk: nat, cap: nat, num: nat, written: nat, truncated: bool, stopped: bool, out: seq<Chunk>)

  function New(maxChunk: nat, cap: nat): Sink { Sink(maxChunk, cap, 0, 0, false, false, []) }

  predicate Valid(s: Sink) { s.maxChunk > 0 && s.written <= s.cap }

  /** The number is used up whether or not the chunk gets out; lost holds the numbers whose emit
      fails. */
  function Send(s: Sink, stream: Stream, data: Bytes, eof: bool, lost: set<nat>): Sink {
    var n := s.num + 1;
    s.(num := n, out := if n in lost then s.out else s.out + [Chunk(stream, n, data, eof)])
  }

  /** Sends p in pieces, until one fails. */
  function SendAll(s: Sink, stream: Stream, p: Bytes, lost: set<nat>): Sink
    requires s.maxChunk > 0
    decreases |p|
  {
    if p == [] then s
    else
      var n := Min(|p|, s.maxChunk);
      var t := Send(s, stream, p[..n], false, lost);
      if t.num in lost then t else SendAll(t.(written := t.written + n), stream, p[n..], lost)
  }

  function Fit(s: Sink, p: Bytes): Bytes
    requires Valid(s)
  {
    if |p| > s.cap - s.written then p[..s.cap - s.written] else p
  }

  function Write(s: Sink, stream: Stream, p: Bytes, lost: set<nat>): Sink
    requires Valid(s)
  {
    if p == [] || s.truncated || s.stopped then s
    else SendAll(s.(truncated := |p| > s.cap - s.written), stream, Fit(s, p), lost)
  }

  // ---------------------------------------------------------------- the sink object

  class SinkObject {
    const maxChunk: nat
    const cap: nat
    var num: nat
    var written: nat
    var truncated: bool
    var stopped: bool
    ghost var out: seq<Chunk>

    ghost function State(): Sink reads this { Sink(maxChunk, cap, num, written, truncated, stopped, out) }

    constructor (maxChunk: nat, cap: nat)
      ensures State() == New(maxChunk, cap)
    {
      this.maxChunk, this.cap := maxChunk, cap;
      num, written, truncated, stopped, out := 0, 0, false, false, [];
    }

    method SendChunk(stream: Stream, data: Bytes, eof: bool, lost: set<nat>) returns (ok: bool)
      modifies this
      ensures State() == Send(old(State()), stream, data, eof, lost) && ok == (num !in lost)
    {
      num := num + 1;
      ok := num !in lost;
      if ok {
        out := out + [Chunk(stream, num, data, eof)];
      }
    }

    method WriteOut(stream: Stream, p: Bytes, lost: set<nat>)
      requires Valid(State())
      modifies this
      ensures State() == Write(old(State()), stream, p, lost)
    {
      if |p| == 0 || truncated || stopped {
        return;
      }
      var rest := p;
      if |rest| > cap - written {
        rest := rest[..cap - written];
        truncated := true;
      }
      while |rest| > 0
        invariant SendAll(State(), stream, rest, lost) == Write(old(State()), stream, p, lost)
        decreases |rest|
      {
        var n := Min(|rest|, maxChunk);
        var ok := SendChunk(stream, rest[..n], false, lost);
        if !ok {
          return;
        }
        written := written + n;
        rest := rest[n..];
      }
    }

    method Eof(stream: Stream, lost: set<nat>) returns (ok: bool)
      modifies this
      ensures State() == Send(old(State()), stream, [], true, lost) && ok == (num !in lost)
    {
      ok := SendChunk(stream, [], true, lost);
    }

    /** From here no write changes anything, and the end-of-stream markers still go out. */
    method Stop()
      modifies this
      ensures Valid(State()) ==>
              forall stream: Stream, p: Bytes, lost: set<nat> :: Write(State(), stream, p, lost) == State()
      ensures forall stream: Stream ::
              Send(State(), stream, [], true, {}).out == old(out) + [Chunk(stream, num + 1, [], true)]
      ensures State() == old(State()).(stopped := true)
    {
      stopped := true;
    }
  }

  // ---------------------------------------------------------------- runs

  /** What the two pumps and the runner do to the sink, one call at a time. */
  datatype Event = Data(stream: Stream, p: Bytes) | Close(stream: Stream) | Halt

  function Next(s: Sink, e: Event, lost: set<nat>): Sink
    requires Valid(s)
  {
    match e
    case Data(stream, p) => Write(s, stream, p, lost)
    case Close(stream) => Send(s, stream, [], true, lost)
    case Halt => s.(stopped := true)
  }

  /** A write never passes the cap. */
  lemma {:induction false} SendAllKeepsValid(s: Sink, stream: Stream, p: Bytes, lost: set<nat>)
    requires s.maxChunk > 0 && s.written + |p| <= s.cap
    ensures Valid(SendAll(s, stream, p, lost))
    decreases |p|
  {
    if p != [] {
      var n := Min(|p|, s.maxChunk);
      var t := Send(s, stream, p[..n], false, lost);
      if t.num !in lost {
        SendAllKeepsValid(t.(written := t.written + n), stream, p[n..], lost);
      }
    }
  }

  lemma NextKeepsValid(s: Sink, e: Event, lost: set<nat>)
    requires Valid(s)
    ensures Valid(Next(s, e, lost))
  {
    if e.Data? && !(e.p == [] || s.truncated || s.stopped) {
      SendAllKeepsValid(s.(truncated := |e.p| > s.cap - s.written), e.stream, Fit(s, e.p), lost);
    }
  }

  function After(s: Sink, es: seq<Event>, lost: set<nat>): (t: Sink)
    requires Valid(s)
    ensures Valid(t)
  {
    if es == [] then s
    else
      var t := After(s, es[..|es| - 1], lost);
      NextKeepsValid(t, es[|es| - 1], lost);
      Next(t, es[|es| - 1], lost)
  }

  // ---------------------------------------------------------------- numbering and sizes, even if emits fail

  predicate WellFormed(c: Chunk, maxChunk: nat) {
    if c.eof then c.data == [] else 0 < |c.data| <= maxChunk
  }

  /** Numbers increase, up to num; a data chunk is not empty and not too long; a marker is empty. */
  predicate Chunks(out: seq<Chunk>, maxChunk: nat, num: nat) {
    && (forall c :: c in out ==> WellFormed(c, maxChunk) && 1 <= c.num <= num)
    && (forall i, j :: 0 <= i < j < |out| ==> out[i].num < out[j].num)
  }

  predicate Framed(s: Sink) { Chunks(s.out, s.maxChunk, s.num) }

  lemma SendKeepsChunks(s: Sink, stream: Stream, data: Bytes, eof: bool, lost: set<nat>)
    requires Framed(s) && WellFormed(Chunk(stream, s.num + 1, data, eof), s.maxChunk)
    ensures Framed(Send(s, stream, data, eof, lost))
  {
    var t := Send(s, stream, data, eof, lost);
    assert forall i :: 0 <= i < |s.out| ==> t.out[i] == s.out[i] && s.out[i] in s.out;
  }

  lemma {:induction false} SendAllKeepsFramed(s: Sink, stream: Stream, p: Bytes, lost: set<nat>)
    requires s.maxChunk > 0 && Framed(s)
    ensures Framed(SendAll(s, stream, p, lost))
    decreases |p|
  {
    hide Chunks;
    if p != [] {
      var n := Min(|p|, s.maxChunk);
      var t := Send(s, stream, p[..n], false, lost);
      SendKeepsChunks(s, stream, p[..n], false, lost);
      if t.num !in lost {
        SendAllKeepsFramed(t.(written := t.written + n), stream, p[n..], lost);
      }
    }
  }

  lemma NextKeepsFramed(s: Sink, e: Event, lost: set<nat>)
    requires Valid(s) && Framed(s)
    ensures Framed(Next(s, e, lost))
  {
    hide SendAll, Fit, Chunks;
    if e.Close? {
      SendKeepsChunks(s, e.stream, [], true, lost);
    }
    if e.Data? && !(e.p == [] || s.truncated || s.stopped) {
      SendAllKeepsFramed(s.(truncated := |e.p| > s.cap - s.written), e.stream, Fit(s, e.p), lost);
    }
  }

  /** Whatever is written, and whichever emits fail: numbers strictly increase and every chunk is well
      formed. */
  lemma {:induction false} AlwaysFramed(s: Sink, es: seq<Event>, lost: set<nat>)
    requires Valid(s) && Framed(s)
    ensures Framed(After(s, es, lost))
  {
    hide Framed, Next;
    if es != [] {
      AlwaysFramed(s, es[..|es| - 1], lost);
      NextKeepsFramed(After(s, es[..|es| - 1], lost), es[|es| - 1], lost);
    }
  }

  // ---------------------------------------------------------------- reassembly, when emits succeed

  /** One byte of output and the stream it came on. */
  datatype Tagged = Tagged(stream: Stream, b: byte)

  function Tag(stream: Stream, p: Bytes): (r: seq<Tagged>)
    ensures |r| == |p|
  {
    seq(|p|, i requires 0 <= i < |p| => Tagged(stream, p[i]))
  }

  /** The bytes a reader of the chunks gets, in order. */
  function Received(out: seq<Chunk>): seq<Tagged> {
    if out == [] then [] else Received(out[..|out| - 1]) + Tag(out[|out| - 1].stream, out[|out| - 1].data)
  }

  /** The bytes written before the sink was stopped, in order. */
  function Written(es: seq<Event>): seq<Tagged> {
    if es == [] then []
    else
      var front, e := es[..|es| - 1], es[|es| - 1];
      Written(front) + if e.Data? && Halt !in front then Tag(e.stream, e.p) else []
  }

  lemma ReceivedSnoc(out: seq<Chunk>, c: Chunk)
    ensures Received(out + [c]) == Received(out) + Tag(c.stream, c.data)
  {
    assert (out + [c])[..|out + [c]| - 1] == out;
  }

  lemma TagSplit(stream: Stream, p: Bytes, n: nat)
    requires n <= |p|
    ensures Tag(stream, p) == Tag(stream, p[..n]) + Tag(stream, p[n..])
    ensures p == [] ==> Tag(stream, p) == []
  {
  }

  /** Numbered 1, 2, 3 and so on. */
  predicate Numbered(out: seq<Chunk>, num: nat) {
    |out| == num && forall i :: 0 <= i < |out| ==> out[i].num == i + 1
  }

  lemma SendDelivers(s: Sink, stream: Stream, data: Bytes, eof: bool)
    requires Numbered(s.out, s.num)
    ensures var t := Send(s, stream, data, eof, {});
            Numbered(t.out, t.num) && Received(t.out) == Received(s.out) + Tag(stream, data)
  {
    ReceivedSnoc(s.out, Chunk(stream, s.num + 1, data, eof));
  }

  /** With every emit succeeding, a framed write delivers exactly its bytes, numbered on from where the
      sink was. */
  lemma {:induction false} SendAllDelivers(s: Sink, stream: Stream, p: Bytes)
    requires s.maxChunk > 0 && Numbered(s.out, s.num)
    ensures var t := SendAll(s, stream, p, {});
            && Received(t.out) == Received(s.out) + Tag(stream, p) && Numbered(t.out, t.num)
            && t.maxChunk == s.maxChunk && t.cap == s.cap && t.written == s.written + |p|
            && t.truncated == s.truncated && t.stopped == s.stopped
    decreases |p|
  {
    hide Received, Tag, Numbered;
    if p != [] {
      var n := Min(|p|, s.maxChunk);
      var t := Send(s, stream, p[..n], false, {});
      SendDelivers(s, stream, p[..n], false);
      TagSplit(stream, p, n);
      SendAllDelivers(t.(written := t.written + n), stream, p[n..]);
      assert Received(s.out) + Tag(stream, p[..n]) + Tag(stream, p[n..]) == Received(s.out) + Tag(stream, p);
    } else {
      TagSplit(stream, [], 0);
    }
  }

  /** The sink has delivered the first cap bytes of what was written, numbered 1, 2, 3 and so on, and is
      marked truncated exactly when there were more. */
  predicate Delivered(s: Sink, written: seq<Tagged>) {
    && Numbered(s.out, s.num) && Received(s.out) == written[..Min(|written|, s.cap)]
    && s.written == Min(|written|, s.cap)
    && (s.truncated <==> |written| > s.cap)
  }

  lemma TakeMore(written: seq<Tagged>, more: seq<Tagged>, n: nat, cap: nat)
    requires |written| <= cap && n == Min(|more|, cap - |written|)
    ensures (written + more)[..Min(|written + more|, cap)] == written + more[..n]
  {
  }

  lemma WriteDelivers(s: Sink, stream: Stream, p: Bytes, written: seq<Tagged>)
    requires Valid(s) && Delivered(s, written) && !s.stopped
    ensures Delivered(Write(s, stream, p, {}), written + Tag(stream, p))
    ensures Write(s, stream, p, {}).stopped == s.stopped && Write(s, stream, p, {}).cap == s.cap
  {
    hide Received, Numbered, SendAll;
    var more := written + Tag(stream, p);
    if s.truncated || p == [] {
      assert more[..Min(|more|, s.cap)] == written[..Min(|written|, s.cap)];
    } else {
      var q := Fit(s, p);
      SendAllDelivers(s.(truncated := |p| > s.cap - s.written), stream, q);
      TagSplit(stream, p, |q|);
      assert Tag(stream, q) == Tag(stream, p)[..|q|];
      TakeMore(written, Tag(stream, p), |q|, s.cap);
      assert written[..Min(|written|, s.cap)] == written;
    }
  }

  lemma CloseDelivers(s: Sink, stream: Stream, written: seq<Tagged>)
    requires Delivered(s, written)
    ensures Delivered(Send(s, stream, [], true, {}), written)
  {
    SendDelivers(s, stream, [], true);
    assert Tag(stream, []) == [];
  }

  lemma NextDelivers(s: Sink, e: Event, written: seq<Tagged>)
    requires Valid(s) && Delivered(s, written)
    ensures Delivered(Next(s, e, {}), if e.Data? && !s.stopped then written + Tag(e.stream, e.p) else written)
    ensures Next(s, e, {}).cap == s.cap && (Next(s, e, {}).stopped <==> s.stopped || e.Halt?)
  {
    match e
    case Data(stream, p) =>
      if !s.stopped {
        WriteDelivers(s, stream, p, written);
      }
    case Close(stream) => CloseDelivers(s, stream, written);
    case Halt =>
  }

  /** Over any interleaving of writes, markers and a stop, with emits succeeding. */
  lemma {:induction false} OutputReassembles(maxChunk: nat, cap: nat, es: seq<Event>)
    requires maxChunk > 0
    ensures var s := After(New(maxChunk, cap), es, {});
            s.cap == cap && Delivered(s, Written(es)) && (s.stopped <==> Halt in es)
  {
    if es != [] {
      var front, e := es[..|es| - 1], es[|es| - 1];
      assert es == front + [e];
      OutputReassembles(maxChunk, cap, front);
      hide Delivered, Next;
      NextDelivers(After(New(maxChunk, cap), front, {}), e, Written(front));
    }
  }

  /** Whichever emits fail, what gets out of one write is a prefix of it, and of what fits under the cap; all
      that fits, unless an emit failed. Only what got out counts towards the cap. */
  lemma {:induction false} SendAllIsAPrefix(s: Sink, stream: Stream, p: Bytes, lost: set<nat>) returns (k: nat)
    requires s.maxChunk > 0
    ensures var t := SendAll(s, stream, p, lost);
            && k <= |p| && Received(t.out) == Received(s.out) + Tag(stream, p[..k]) && t.written == s.written + k
            && s.num <= t.num && (k < |p| <==> s.num < t.num && t.num in lost)
    decreases |p|
  {
    hide Received, Tag;
    if p == [] {
      k := 0;
      TagNone(stream, p, s.out);
    } else {
      var n := Min(|p|, s.maxChunk);
      var t := Send(s, stream, p[..n], false, lost);
      if t.num in lost {
        k := 0;
        TagNone(stream, p, s.out);
      } else {
        var m := SendAllIsAPrefix(t.(written := t.written + n), stream, p[n..], lost);
        k := n + m;
        TagMore(stream, p, n, m, s, lost);
      }
    }
  }

  lemma TagNone(stream: Stream, p: Bytes, out: seq<Chunk>)
    ensures Received(out) == Received(out) + Tag(stream, p[..0])
  {
  }

  lemma TagMore(stream: Stream, p: Bytes, n: nat, m: nat, s: Sink, lost: set<nat>)
    requires n + m <= |p| && s.num + 1 !in lost
    ensures var t := Send(s, stream, p[..n], false, lost);
            Received(t.out) + Tag(stream, p[n..][..m]) == Received(s.out) + Tag(stream, p[..n + m])
  {
    ReceivedSnoc(s.out, Chunk(stream, s.num + 1, p[..n], false));
    hide Received, Tag;
    var q := p[..n + m];
    TagSplit(stream, q, n);
    assert q[..n] == p[..n] && q[n..] == p[n..][..m];
    Regroup(Received(s.out), Tag(stream, p[..n]), Tag(stream, q[n..]));
  }

  lemma Regroup(a: seq<Tagged>, b: seq<Tagged>, c: seq<Tagged>)
    ensures a + b + c == a + (b + c)
  {
  }

  // ---------------------------------------------------------------- nothing after the markers

  /** What the runner guarantees before it closes a stream: both pumps are done, or the sink is
      stopped. */
  predicate Orderly(es: seq<Event>) {
    forall i, j :: 0 <= i < j < |es| && es[i].Close? && es[j].Data? ==> Halt in es[..i]
  }

  predicate EndsAreLast(out: seq<Chunk>) {
    forall i, j :: 0 <= i < j < |out| && out[i].eof ==> out[j].eof
  }

  lemma {:induction false} SendAllKeepsEnds(s: Sink, stream: Stream, p: Bytes, lost: set<nat>)
    requires s.maxChunk > 0 && forall i :: 0 <= i < |s.out| ==> !s.out[i].eof
    ensures var t := SendAll(s, stream, p, lost);
            t.stopped == s.stopped && forall i :: 0 <= i < |t.out| ==> !t.out[i].eof
    decreases |p|
  {
    if p != [] {
      var n := Min(|p|, s.maxChunk);
      var t := Send(s, stream, p[..n], false, lost);
      if t.num !in lost {
        SendAllKeepsEnds(t.(written := t.written + n), stream, p[n..], lost);
      }
    }
  }

  /** On every orderly run, whichever emits fail, no data chunk follows an end-of-stream marker. */
  lemma {:induction false} NoDataAfterTheEnd(maxChunk: nat, cap: nat, es: seq<Event>, lost: set<nat>)
    requires maxChunk > 0 && Orderly(es)
    ensures var s := After(New(maxChunk, cap), es, lost);
            && EndsAreLast(s.out) && (Halt in es ==> s.stopped)
            && ((forall e :: e in es ==> !e.Close?) ==> forall i :: 0 <= i < |s.out| ==> !s.out[i].eof)
  {
    if es != [] {
      var front, e := es[..|es| - 1], es[|es| - 1];
      assert es == front + [e];
      assert forall i :: 0 <= i < |front| ==> es[..i] == front[..i];
      NoDataAfterTheEnd(maxChunk, cap, front, lost);
      var s := After(New(maxChunk, cap), front, lost);
      if e.Data? && !(e.p == [] || s.truncated || s.stopped) {
        assert forall i :: 0 <= i < |front| && front[i].Close? ==> Halt in front[..i] && Halt in front;
        SendAllKeepsEnds(s.(truncated := |e.p| > s.cap - s.written), e.stream, Fit(s, e.p), lost);
      }
    }
  }
}
