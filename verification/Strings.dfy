/**
 Strings as Go's standard library trims and splits them.
 */
module Strings {
  /** The characters Go's strings.TrimSpace removes. */
  predicate IsSpace(c: char) {
    var n := c as int;
    n in {9, 10, 11, 12, 13, 32, 0x85, 0xA0, 0x1680, 0x2028, 0x2029, 0x202F, 0x205F, 0x3000}
    || 0x2000 <= n <= 0x200A
  }

  predicate Trimmed(s: string) {
    s == "" || (!IsSpace(s[0]) && !IsSpace(s[|s| - 1]))
  }

  /** strings.TrimSpace: the result has no space at either end, and a string that already has
      none is returned as it is. */
  function Trim(s: string): (r: string)
    ensures Trimmed(r)
    ensures Trimmed(s) ==> r == s
    ensures forall c :: c in r ==> c in s
  {
    if s == "" then ""
    else if IsSpace(s[0]) then Trim(s[1..])
    else if IsSpace(s[|s| - 1]) then Trim(s[..|s| - 1])
    else s
  }

  predicate Spaces(s: string) { forall c :: c in s ==> IsSpace(c) }

  /** Spaces on either side come off. */
  lemma {:induction false} TrimPads(before: string, s: string, after: string)
    requires Spaces(before) && Spaces(after) && s != "" && Trimmed(s)
    ensures Trim(before + s + after) == s
    decreases |before| + |after|
  {
    hide IsSpace;
    var t := before + s + after;
    if before != "" {
      assert t[0] == before[0] && before[0] in before && t[1..] == before[1..] + s + after;
      assert forall c :: c in before[1..] ==> c in before;
      TrimPads(before[1..], s, after);
    } else if after != "" {
      var n := |after| - 1;
      assert t[0] == s[0] && t[|t| - 1] == after[n] && after[n] in after;
      assert t[..|t| - 1] == before + s + after[..n];
      assert forall c :: c in after[..n] ==> c in after;
      TrimPads(before, s, after[..n]);
    } else {
      assert t == s;
    }
  }

  /** strings.Split(s, "\n"). */
  function Lines(s: string): (ls: seq<string>)
    ensures |ls| > 0
    ensures '\n' !in s ==> ls == [s]
    ensures forall l :: l in ls ==> '\n' !in l
  {
    if s == "" then [""]
    else
      var rest := Lines(s[1..]);
      assert s == [s[0]] + s[1..];
      if s[0] == '\n' then [""] + rest else [[s[0]] + rest[0]] + rest[1..]
  }
}
