/**
 Update ids as the package managers here spell them: "pkg=version", with "name.arch" on the left for
 dnf, and the checks an id passes before it reaches a command line.
 */
module PackageIds {
  import opened Basics
  import opened Strings

  datatype Pair = Pair(left: string, right: string)

  const MAX_TOKEN := 256

  /** strings.Index of one character. */
  function IndexOf(s: string, c: char): (r: int)
    ensures -1 <= r < |s| && (r < 0 <==> c !in s)
    ensures r >= 0 ==> s[r] == c && c !in s[..r]
  {
    if s == "" then -1
    else if s[0] == c then 0
    else
      var i := IndexOf(s[1..], c);
      assert s == [s[0]] + s[1..];
      if i < 0 then -1 else assert s[..i + 1] == [s[0]] + s[1..][..i]; i + 1
  }

  /** strings.LastIndex of one character. */
  function LastIndexOf(s: string, c: char): (r: int)
    ensures -1 <= r < |s| && (r < 0 <==> c !in s)
    ensures r >= 0 ==> s[r] == c && c !in s[r + 1..]
  {
    if s == "" then -1
    else if s[|s| - 1] == c then |s| - 1
    else
      var i := LastIndexOf(s[..|s| - 1], c);
      assert s == s[..|s| - 1] + [s[|s| - 1]];
      assert i >= 0 ==> s[i + 1..] == s[..|s| - 1][i + 1..] + [s[|s| - 1]];
      i
  }

  /** strings.Cut. */
  function Cut(s: string, c: char): (r: Option<Pair>)
    ensures r.None? <==> c !in s
    ensures r.Some? ==> s == r.value.left + [c] + r.value.right && c !in r.value.left
  {
    var i := IndexOf(s, c);
    if i < 0 then None else Some(Pair(s[..i], s[i + 1..]))
  }

  lemma CutIs(left: string, c: char, right: string)
    requires c !in left
    ensures Cut(left + [c] + right, c) == Some(Pair(left, right))
  {
    var s := left + [c] + right;
    var i := IndexOf(s, c);
    assert s[|left|] == c;
    assert forall k :: 0 <= k < |left| ==> s[k] == left[k] && left[k] in left;
    assert forall k :: 0 <= k < i ==> s[k] in s[..i];
    assert s[..i] == left && s[i + 1..] == right;
  }

  lemma LastIndexIs(left: string, c: char, right: string)
    requires c !in right
    ensures LastIndexOf(left + [c] + right, c) == |left|
  {
    var s := left + [c] + right;
    var i := LastIndexOf(s, c);
    assert s[|left|] == c && s[|left| + 1..] == right;
    assert forall k :: |left| < k < |s| ==> s[k] in s[|left| + 1..];
    assert forall k :: i < k < |s| ==> s[k] in s[i + 1..];
  }

  /** splitPkgVersionID: both halves must be there. */
  function SplitId(id: string): (r: Option<Pair>)
    ensures r.Some? ==> id == r.value.left + "=" + r.value.right && '=' !in r.value.left
    ensures r.Some? ==> r.value.left != "" && r.value.right != ""
    ensures r.None? ==> forall l, v :: id == l + "=" + v && '=' !in l ==> l == "" || v == ""
  {
    var p := Cut(id, '=');
    assert p.None? || p.value.left == "" || p.value.right == "" ==>
      forall l, v :: id == l + "=" + v && '=' !in l ==> l == "" || v == "" by {
      forall l, v | id == l + "=" + v && '=' !in l ensures p == Some(Pair(l, v)) {
        CutIs(l, '=', v);
      }
    }
    if p.None? || p.value.left == "" || p.value.right == "" then None else p
  }

  lemma SplitIs(left: string, right: string)
    requires left != "" && right != "" && '=' !in left
    ensures SplitId(left + "=" + right) == Some(Pair(left, right))
  {
    CutIs(left, '=', right);
    hide Cut;
    assert left + "=" + right == left + ['='] + right;
  }

  // ---------------------------------------------------------------- names and versions fit for a command line

  predicate AlphaNumeric(c: char, upper: bool) {
    'a' <= c <= 'z' || '0' <= c <= '9' || (upper && 'A' <= c <= 'Z')
  }

  predicate NameChar(c: char, upper: bool) { AlphaNumeric(c, upper) || c in "@._+-" }

  predicate VersionChar(c: char) { AlphaNumeric(c, true) || c in ".:+~^_-" }

  predicate GoodName(name: string, upper: bool) {
    0 < |name| <= MAX_TOKEN && AlphaNumeric(name[0], upper) && forall c :: c in name ==> NameChar(c, upper)
  }

  predicate GoodVersion(version: string) {
    0 < |version| <= MAX_TOKEN && version[0] != '-' && forall c :: c in version ==> VersionChar(c)
  }

  method CheckPkgName(name: string, upper: bool) returns (ok: bool)
    ensures ok == GoodName(name, upper)
  {
    if name == "" || |name| > MAX_TOKEN {
      return false;
    }
    for i := 0 to |name|
      invariant i > 0 ==> AlphaNumeric(name[0], upper)
      invariant forall k :: 0 <= k < i ==> NameChar(name[k], upper)
    {
      if i == 0 {
        if !AlphaNumeric(name[0], upper) {
          return false;
        }
      } else if !NameChar(name[i], upper) {
        assert name[i] in name;
        return false;
      }
    }
    return true;
  }

  method CheckPkgVersion(version: string) returns (ok: bool)
    ensures ok == GoodVersion(version)
  {
    if version == "" || |version| > MAX_TOKEN || version[0] == '-' {
      return false;
    }
    for i := 0 to |version|
      invariant forall k :: 0 <= k < i ==> VersionChar(version[k])
    {
      if !VersionChar(version[i]) {
        assert version[i] in version;
        return false;
      }
    }
    return true;
  }

  // ---------------------------------------------------------------- the agent's own package

  const ARCHES: set<string> := {
    "x86_64", "i686", "i386", "noarch", "aarch64", "armv7hl", "armv6hl", "ppc64le", "ppc64", "s390x", "riscv64", "src"
  }

  /** splitNameArch: the part after the last dot, if it is an architecture. */
  function SplitNameArch(token: string): (r: Pair)
    ensures if r.right == "" then r.left == token else token == r.left + "." + r.right && r.right in ARCHES
  {
    var dot := LastIndexOf(token, '.');
    if dot < 0 || token[dot + 1..] !in ARCHES then Pair(token, "") else Pair(token[..dot], token[dot + 1..])
  }

  const SELF: set<string> := {"everwas-agent", "everwas"}

  function LowerChar(c: char): char { if 'A' <= c <= 'Z' then (c as int + 32) as char else c }

  function Lower(s: string): (r: string)
    ensures |r| == |s| && forall i :: 0 <= i < |s| ==> r[i] == LowerChar(s[i])
  {
    if s == "" then "" else Lower(s[..|s| - 1]) + [LowerChar(s[|s| - 1])]
  }

  function PackageNameOf(id: string): string {
    var t := Trim(id);
    if t == "" then ""
    else
      var p := Cut(t, '=');
      var left := if p.None? then t else p.value.left;
      var name := SplitNameArch(left).left;
      Trim(if name != "" then name else left)
  }

  predicate IsSelfPackage(id: string) {
    PackageNameOf(id) != "" && Lower(PackageNameOf(id)) in SELF
  }

  lemma LowerKeeps(s: string)
    requires forall c :: c in s ==> !('A' <= c <= 'Z')
    ensures Lower(s) == s
  {
    assert forall i :: 0 <= i < |s| ==> s[i] in s;
  }

  lemma NoSpaces(s: string)
    requires forall c :: c in s ==> !IsSpace(c)
    ensures Trimmed(s)
  {
    if s != "" {
      assert s[0] in s && s[|s| - 1] in s;
    }
  }

  /** The name half without an architecture on it. */
  function BaseName(name: string): string {
    var base := SplitNameArch(name).left;
    if base != "" then base else name
  }

  lemma NameCharIsPlain(c: char)
    requires NameChar(c, false)
    ensures !IsSpace(c) && c != '=' && !('A' <= c <= 'Z')
  {
  }

  lemma VersionCharIsPlain(c: char)
    requires VersionChar(c)
    ensures !IsSpace(c)
  {
  }

  lemma GoodHasNoSpace(name: string, version: string)
    requires GoodName(name, false) && GoodVersion(version)
    ensures Trimmed(name + "=" + version) && '=' !in name && Trimmed(BaseName(name)) &&
            Lower(BaseName(name)) == BaseName(name)
  {
    hide NameChar, VersionChar, AlphaNumeric, IsSpace;
    var id := name + "=" + version;
    forall c | c in name ensures !IsSpace(c) && c != '=' && !('A' <= c <= 'Z') {
      NameCharIsPlain(c);
    }
    forall c | c in version ensures !IsSpace(c) {
      VersionCharIsPlain(c);
    }
    assert !IsSpace(id[0]) && !IsSpace(id[|id| - 1]) by {
      assert id[0] == name[0] && id[|id| - 1] == version[|version| - 1];
    }
    assert forall c :: c in BaseName(name) ==> c in name;
    NoSpaces(BaseName(name));
    LowerKeeps(BaseName(name));
  }

  /** Whether an id is the agent's own package comes down to the name before the "=", with or without an
      architecture, in any case and with any space around the id. */
  lemma SelfInAnyDress(before: string, name: string, version: string, after: string)
    requires Spaces(before) && Spaces(after) && name != "" && version != "" && '=' !in name
    requires forall c :: c in name || c in version ==> !IsSpace(c)
    ensures IsSelfPackage(before + (name + "=" + version) + after) <==> Lower(BaseName(name)) in SELF
  {
    hide IsSpace, SplitNameArch, Lower;
    var id := name + "=" + version;
    assert id[0] == name[0] && id[|id| - 1] == version[|version| - 1];
    TrimPads(before, id, after);
    CutIs(name, '=', version);
    assert id == name + ['='] + version;
    assert forall c :: c in BaseName(name) ==> c in name;
    NoSpaces(BaseName(name));
  }

  /** A name or version that passes its check cannot be taken for an option, nor for two words. */
  lemma CheckedIsOneArgument(name: string, version: string, upper: bool)
    ensures GoodName(name, upper) ==> name != "" && name[0] != '-' && forall c :: c in name ==> !IsSpace(c)
    ensures GoodVersion(version) ==> version != "" && version[0] != '-' && forall c :: c in version ==> !IsSpace(c)
  {
  }

  /** For an id that passes the other checks, whether it is the agent's own package comes down to the
      name before the "=", with or without an architecture. */
  lemma SelfIsByName(name: string, version: string)
    requires GoodName(name, false) && GoodVersion(version)
    ensures IsSelfPackage(name + "=" + version) <==> BaseName(name) in SELF
  {
    hide SplitNameArch;
    GoodHasNoSpace(name, version);
    CutIs(name, '=', version);
  }
}
