/**
 The list of versions a host has rolled back: how a version is normalised before it is
 written, how the agent merges its own list with the guard's append-only file, and exactly
 when a version that was once denied is still refused.
 */
module Denylist {
  import opened Basics
  import opened Strings

  const MAX_DENIED := 32

  /** A version that survives being written to a line-based file and read back. */
  predicate Plain(v: string) {
    v != "" && Trimmed(v) && '\n' !in v
  }

  /** One turn of the merge: a version is added unless it is blank or already listed. */
  function Add(list: seq<string>, line: string): (r: seq<string>) {
    var v := Trim(line);
    if v == "" || v in list then list else list + [v]
  }

  /** Each non-blank version once, trimmed, in order of first appearance. */
  function Distinct(vs: seq<string>): (r: seq<string>)
    ensures forall i, j :: 0 <= i < j < |r| ==> r[i] != r[j]
    ensures forall v :: v in vs && Trim(v) != "" ==> Trim(v) in r
  {
    if vs == [] then []
    else
      var prefix, last := vs[..|vs| - 1], vs[|vs| - 1];
      assert vs == prefix + [last];
      Add(Distinct(prefix), last)
  }

  lemma DistinctSnoc(vs: seq<string>, line: string)
    ensures Distinct(vs + [line]) == Add(Distinct(vs), line)
  {
    assert (vs + [line])[..|vs + [line]| - 1] == vs;
  }

  /** What Tracker.Denied returns for a state list and a denylist file. */
  function Merged(stateList: seq<string>, file: seq<string>): (r: seq<string>) {
    LastN(Distinct(stateList + file), MAX_DENIED)
  }

  /** One more on the list, the oldest dropped past the bound. */
  function Grown(list: seq<string>, v: string): (r: seq<string>)
    ensures |r| <= MAX_DENIED && v in r && forall x :: x in r ==> x in list || x == v
  {
    var grown := list + [v];
    var r := LastN(grown, MAX_DENIED);
    assert r[|r| - 1] == grown[|grown| - 1] == v;
    r
  }

  /** appendDenied: one more version on the bounded list kept in the state file. */
  function Append(list: seq<string>, version: string): (r: seq<string>)
    ensures |list| <= MAX_DENIED ==> |r| <= MAX_DENIED
    ensures Trim(version) != "" ==> Trim(version) in r
    ensures forall v :: v in r ==> v in list || v == Trim(version)
  {
    var v := Trim(version);
    if v == "" || v in list then list
    else Grown(list, v)
  }

  /** The loops of Tracker.Denied, with the seen set written out. */
  method MergeLists(stateList: seq<string>, file: seq<string>) returns (out: seq<string>)
    ensures out == Merged(stateList, file)
  {
    var all := stateList + file;
    var seen: set<string> := {};
    out := [];
    for i := 0 to |all|
      invariant out == Distinct(all[..i])
      invariant forall v :: v in seen <==> v in out
    {
      assert all[..i + 1] == all[..i] + [all[i]];
      DistinctSnoc(all[..i], all[i]);
      var v := Trim(all[i]);
      if v != "" && v !in seen {
        seen := seen + {v};
        out := out + [v];
      }
    }
    assert all[..|all|] == all;
    if |out| > MAX_DENIED {
      out := out[|out| - MAX_DENIED..];
    }
  }

  lemma {:induction false} DistinctPrefix(a: seq<string>, b: seq<string>)
    ensures |Distinct(a)| <= |Distinct(a + b)|
    ensures Distinct(a + b)[..|Distinct(a)|] == Distinct(a)
  {
    if b == [] {
      assert a + b == a;
    } else {
      assert a + b == a + b[..|b| - 1] + [b[|b| - 1]];
      DistinctSnoc(a + b[..|b| - 1], b[|b| - 1]);
      DistinctPrefix(a, b[..|b| - 1]);
    }
  }

  /** The exact life of a denial. A version first listed right after `before` is still on the
      merged list if and only if, counting itself, at most 32 distinct versions were first
      listed from that point on. */
  lemma DeniedUntilOverrun(before: seq<string>, line: string, after: seq<string>)
    requires Trim(line) != "" && Trim(line) !in Distinct(before)
    ensures Trim(line) in Merged(before + [line], after)
            <==> |Distinct(before + [line] + after)| - |Distinct(before)| <= MAX_DENIED
  {
    var all := before + [line] + after;
    var d := Distinct(all);
    var at := |Distinct(before)|;
    DistinctSnoc(before, line);
    assert Distinct(before + [line]) == Distinct(before) + [Trim(line)];
    DistinctPrefix(before + [line], after);
    assert d[at] == d[..at + 1][at] == Trim(line);
    var kept := LastN(d, MAX_DENIED);
    var cut := |d| - |kept|;
    if cut <= at {
      assert kept[at - cut] == Trim(line);
    } else {
      assert forall k :: 0 <= k < |kept| ==> kept[k] == d[cut + k];
    }
  }
}
