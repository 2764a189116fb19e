/**
 The resumed download: a part file that grows over many attempts, each cut at any byte, and a
 destination that appears in one rename.
 */
module Download {
  import opened Basics
  datatype Files = Files(part: Option<Bytes>, dest: Option<Bytes>)

  /** The answer to a GET, with a Range header when part of the body is already here: the whole body,
      the rest of it, a range past its end, or anything else. */
  datatype Status = Ok200 | Partial206 | Unsatisfiable416 | Other

  /** What one attempt meets. reply is None when there is no response; cut is how many bytes arrive or
      can be written before the transfer breaks, None when it does not. */
  datatype Attempt = Attempt(
    allowed: bool, stagingOk: bool, reply: Option<Status>, openOk: bool, cut: Option<nat>,
    closeOk: bool, removeOk: bool, renameOk: bool, chmodOk: bool)

  datatype Outcome = Ok(size: nat) | NotHttps | Failed | BadStatus | TooLarge | Empty

  function SizeOf(part: Option<Bytes>): nat { if part.Some? then |part.value| else 0 }

  function Removed(f: Files, ok: bool): Files { if ok then f.(part := None) else f }

  /** How much of the body is already here; a part over the cap does not count. */
  function Have(f: Files, max: nat): nat { if SizeOf(f.part) > max then 0 else SizeOf(f.part) }

  /** A stale part over the cap is removed. */
  function Cleared(f: Files, max: nat, a: Attempt): Files { if SizeOf(f.part) > max then Removed(f, a.removeOk) else f }

  /** How many bytes are copied of those the response offers, reading at most one past the cap. */
  function Copied(offered: nat, remaining: nat, cut: Option<nat>): nat {
    var limit := Min(offered, remaining + 1);
    if cut.Some? then Min(cut.value, limit) else limit
  }

  /** The transfer breaks only if it is cut before the reader has all it wants. */
  predicate Broken(offered: nat, remaining: nat, cut: Option<nat>) {
    cut.Some? && cut.value < Min(offered, remaining + 1)
  }

  /** A response to a request for this body from have on, per sections 14.2, 15.3.7 and 15.5.17 of
      RFC 9110: a server may ignore the range, a partial response starts where the request asked and only
      answers a range inside the body, and 416 only one outside it. */
  predicate Conforms(body: Bytes, have: nat, reply: Option<Status>) {
    match reply
    case Some(Partial206) => 0 < have < |body|
    case Some(Unsatisfiable416) => have >= |body| && have > 0
    case _ => true
  }

  class Downloader {
    const maxBytes: nat
    var files: Files

    constructor (maxBytes: nat, files: Files)
      ensures this.maxBytes == maxBytes && this.files == files
    {
      this.maxBytes, this.files := maxBytes, files;
    }

    method Download(body: Bytes, a: Attempt) returns (r: Outcome)
      requires Conforms(body, Have(files, maxBytes), a.reply)
      modifies this
      ensures files == Next(old(files), body, maxBytes, a) && r == OutcomeOf(old(files), body, maxBytes, a)
    {
      if !a.allowed {
        return NotHttps;
      }
      if !a.stagingOk {
        return Failed;
      }
      var have := SizeOf(files.part);
      if have > maxBytes {
        files := Removed(files, a.removeOk);
        have := 0;
      }
      if a.reply.None? {
        return Failed;
      }
      var appending := false;
      match a.reply.value {
        case Ok200 =>
        case Partial206 => appending := have > 0;
        case Unsatisfiable416 =>
          files := Removed(files, a.removeOk);
          return Failed;
        case Other => return BadStatus;
      }
      if !a.openOk {
        return Failed;
      }
      r := Copy(body, if appending then have else 0, a);
    }

    /** Opens the part file, to append after have bytes or from nothing, copies, and puts it in place. */
    method Copy(body: Bytes, have: nat, a: Attempt) returns (r: Outcome)
      requires have <= maxBytes && have <= |body| && (have > 0 ==> files.part.Some?)
      modifies this
      ensures files == CopyNext(old(files), body, maxBytes, have, a) && r == CopyOutcome(body, maxBytes, have, a)
    {
      if have == 0 {
        files := files.(part := Some([]));
      }
      var remaining := maxBytes - have;
      var written := Copied(|body| - have, remaining, a.cut);
      files := files.(part := Some(files.part.value + body[have..have + written]));
      if Broken(|body| - have, remaining, a.cut) || !a.closeOk {
        return Failed;
      }
      if written > remaining {
        files := Removed(files, a.removeOk);
        return TooLarge;
      }
      if have + written == 0 {
        files := Removed(files, a.removeOk);
        return Empty;
      }
      if !a.renameOk {
        return Failed;
      }
      files := Files(None, files.part);
      if !a.chmodOk {
        return Failed;
      }
      return Ok(have + written);
    }
  }

  // ---------------------------------------------------------------- one attempt, by what it means

  /** Where the copy starts: on from what is here for a partial response, from nothing for a whole one. */
  function From(f: Files, max: nat, a: Attempt): nat {
    if a.reply == Some(Partial206) then Have(f, max) else 0
  }

  /** Whether an attempt gets as far as copying. */
  predicate Copies(a: Attempt) {
    a.allowed && a.stagingOk && a.reply.Some? && (a.reply.value.Ok200? || a.reply.value.Partial206?) && a.openOk
  }

  /** How far into the body the part file then reaches. */
  function Reaches(body: Bytes, max: nat, from: nat, a: Attempt): (n: nat)
    requires from <= |body| && from <= max
    ensures from <= n <= |body|
  {
    from + Copied(|body| - from, max - from, a.cut)
  }

  predicate Breaks(body: Bytes, max: nat, from: nat, a: Attempt)
    requires from <= |body| && from <= max
  {
    Broken(|body| - from, max - from, a.cut) || !a.closeOk
  }

  function CopyNext(f: Files, body: Bytes, max: nat, from: nat, a: Attempt): Files
    requires from <= |body| && from <= max && (from > 0 ==> f.part.Some?)
  {
    var n := Reaches(body, max, from, a);
    var g := f.(part := Some((if from > 0 then f.part.value else []) + body[from..n]));
    if Breaks(body, max, from, a) then g
    else if n > max || n == 0 then Removed(g, a.removeOk)
    else if a.renameOk then Files(None, g.part)
    else g
  }

  function CopyOutcome(body: Bytes, max: nat, from: nat, a: Attempt): Outcome
    requires from <= |body| && from <= max
  {
    var n := Reaches(body, max, from, a);
    if Breaks(body, max, from, a) then Failed
    else if n > max then TooLarge
    else if n == 0 then Empty
    else if !a.renameOk || !a.chmodOk then Failed
    else Ok(n)
  }

  /** The files after an attempt. */
  function Next(f: Files, body: Bytes, max: nat, a: Attempt): Files
    requires Conforms(body, Have(f, max), a.reply)
  {
    if !a.allowed || !a.stagingOk then f
    else if a.reply == Some(Unsatisfiable416) then Removed(Cleared(f, max, a), a.removeOk)
    else if !Copies(a) then Cleared(f, max, a)
    else CopyNext(Cleared(f, max, a), body, max, From(f, max, a), a)
  }

  function OutcomeOf(f: Files, body: Bytes, max: nat, a: Attempt): Outcome
    requires Conforms(body, Have(f, max), a.reply)
  {
    if !a.allowed then NotHttps
    else if !a.stagingOk || a.reply.None? || a.reply.value.Unsatisfiable416? then Failed
    else if a.reply.value.Other? then BadStatus
    else if !a.openOk then Failed
    else CopyOutcome(body, max, From(f, max, a), a)
  }

  // ---------------------------------------------------------------- what every attempt keeps

  /** The part file is a prefix of the body; the destination, if there, is the whole of it and within
      the cap. */
  predicate Sound(f: Files, body: Bytes, max: nat) {
    && (f.part.Some? ==> f.part.value <= body)
    && (f.dest.Some? ==> f.dest.value == body && 0 < |body| <= max)
  }

  /** The copied part is the body as far as it reaches, which is all of it if nothing broke. */
  lemma CopyIsAPrefix(f: Files, body: Bytes, max: nat, from: nat, a: Attempt)
    requires from <= |body| && from <= max &&
             (from > 0 ==> f.part.Some? && f.part.value <= body && |f.part.value| == from)
    ensures var n := Reaches(body, max, from, a);
            && (if from > 0 then f.part.value else []) + body[from..n] == body[..n]
            && (!Breaks(body, max, from, a) && n <= max ==> n == |body| && body[..n] == body)
  {
  }

  lemma AttemptKeepsSound(f: Files, body: Bytes, max: nat, a: Attempt)
    requires Sound(f, body, max) && Conforms(body, Have(f, max), a.reply)
    ensures Sound(Next(f, body, max, a), body, max)
  {
    if Copies(a) {
      CopyIsAPrefix(Cleared(f, max, a), body, max, From(f, max, a), a);
    }
  }

  ghost predicate Run(fs: seq<Files>, body: Bytes, max: nat, attempts: seq<Attempt>) {
    && |fs| == |attempts| + 1
    && forall i :: 0 <= i < |attempts| ==>
         Conforms(body, Have(fs[i], max), attempts[i].reply) && fs[i + 1] == Next(fs[i], body, max, attempts[i])
  }

  /** Over any run of attempts, whatever each meets. */
  lemma {:induction false} PartIsAPrefix(fs: seq<Files>, body: Bytes, max: nat, attempts: seq<Attempt>, j: nat)
    requires Run(fs, body, max, attempts) && Sound(fs[0], body, max) && j < |fs|
    ensures Sound(fs[j], body, max)
  {
    hide Next, Sound;
    if j > 0 {
      PartIsAPrefix(fs, body, max, attempts, j - 1);
      AttemptKeepsSound(fs[j - 1], body, max, attempts[j - 1]);
    }
  }

  /** A download that reports success has the whole body in place and reports its size; one that reports
      it too large, or empty, is right. */
  lemma OutcomeIsTrue(f: Files, body: Bytes, max: nat, a: Attempt)
    requires Sound(f, body, max) && Conforms(body, Have(f, max), a.reply)
    ensures match OutcomeOf(f, body, max, a)
            case Ok(size) => size == |body| && Next(f, body, max, a) == Files(None, Some(body)) && 0 < |body| <= max
            case TooLarge => |body| > max && (a.removeOk ==> Next(f, body, max, a).part.None?)
            case Empty => body == [] && (a.removeOk ==> Next(f, body, max, a).part.None?)
            case _ => true
  {
    if Copies(a) {
      CopyIsAPrefix(Cleared(f, max, a), body, max, From(f, max, a), a);
    }
  }

  /** And exactly which outcome is reported when. */
  lemma OutcomeIff(f: Files, body: Bytes, max: nat, a: Attempt)
    requires Sound(f, body, max) && Conforms(body, Have(f, max), a.reply)
    ensures var o, whole := OutcomeOf(f, body, max, a), Copies(a) && !Breaks(body, max, From(f, max, a), a);
            && (o == NotHttps <==> !a.allowed)
            && (o == BadStatus <==> a.allowed && a.stagingOk && a.reply == Some(Other))
            && (o == TooLarge <==> whole && |body| > max)
            && (o == Empty <==> whole && body == [])
            && (o.Ok? <==> whole && 0 < |body| <= max && a.renameOk && a.chmodOk)
  {
    if Copies(a) {
      CopyIsAPrefix(Cleared(f, max, a), body, max, From(f, max, a), a);
    }
  }

  /** What is here is not given up: unless the server sends the whole body again or says there is no more of
      it, a part file within the cap is only added to, until it is the destination or found too large. */
  lemma PartIsKept(f: Files, body: Bytes, max: nat, a: Attempt)
    requires Sound(f, body, max) && Conforms(body, Have(f, max), a.reply) && f.part.Some? && |f.part.value| <= max
    requires a.reply != Some(Ok200) && a.reply != Some(Unsatisfiable416)
    ensures var g := Next(f, body, max, a);
            || (g.part.Some? && f.part.value <= g.part.value && g.dest == f.dest)
            || (g.part.None? && g.dest == Some(body)) || (g.part.None? && g.dest == f.dest && |body| > max)
  {
    if Copies(a) {
      CopyIsAPrefix(f, body, max, From(f, max, a), a);
    }
  }

  /** A part over the cap does not outlive an attempt: it is removed, if it can be, or written over. */
  lemma StaleIsDropped(f: Files, body: Bytes, max: nat, a: Attempt)
    requires Conforms(body, Have(f, max), a.reply) && SizeOf(f.part) > max && a.allowed && a.stagingOk && a.removeOk
    ensures var g := Next(f, body, max, a);
            if Copies(a) then g.part.Some? ==> g.part.value <= body else g.part.None?
  {
    hide Broken;
  }

  // ---------------------------------------------------------------- it gets there

  /** How a server that honours ranges answers. */
  function Honours(body: Bytes, have: nat): Option<Status> {
    Some(if have == 0 then Ok200 else if have < |body| then Partial206 else Unsatisfiable416)
  }

  /** An attempt in which nothing goes wrong. */
  predicate Smooth(a: Attempt) {
    a.allowed && a.stagingOk && a.openOk && a.cut.None? && a.closeOk && a.removeOk && a.renameOk && a.chmodOk
  }

  /** From wherever earlier attempts left off, a smooth attempt against a server that honours ranges
      delivers the body if and only if the body is not empty and within the cap, unless the part file is
      already the whole body: then it is thrown away and one more attempt delivers it. */
  lemma SmoothAttemptDelivers(f: Files, body: Bytes, max: nat, a: Attempt)
    requires Sound(f, body, max) && Smooth(a) && a.reply == Honours(body, Have(f, max))
    ensures Conforms(body, Have(f, max), a.reply)
    ensures 0 < Have(f, max) == |body| ==> Next(f, body, max, a) == f.(part := None)
    ensures Have(f, max) == 0 || Have(f, max) < |body| ==>
              (Next(f, body, max, a) == Files(None, Some(body)) <==> 0 < |body| <= max)
  {
    OutcomeIsTrue(f, body, max, a);
  }

  lemma TwoSmoothAttemptsDeliver(f: Files, body: Bytes, max: nat, a: Attempt, b: Attempt)
    requires Sound(f, body, max) && Smooth(a) && Smooth(b) && 0 < |body| <= max
    requires a.reply == Honours(body, Have(f, max))
    requires Conforms(body, Have(f, max), a.reply) && b.reply == Honours(body, Have(Next(f, body, max, a), max))
    ensures Next(f, body, max, a).dest == Some(body) || Next(Next(f, body, max, a), body, max, b).dest == Some(body)
  {
    var g := Next(f, body, max, a);
    AttemptKeepsSound(f, body, max, a);
    SmoothAttemptDelivers(f, body, max, a);
    SmoothAttemptDelivers(g, body, max, b);
    hide Next;
  }
}
