/**
 What dnf prints of pending updates, read back: columns that may wrap after the name, banners among
 them, and ids that turn back into the form dnf installs by.
 */
module DnfParse {
  import opened Basics
  import opened Strings
  import opened PackageIds

  datatype Entry = Entry(name: string, arch: string, evr: string, repo: string)

  /** name.arch, as printed in the first column. */
  function Token(e: Entry): string { if e.arch == "" then e.name else e.name + "." + e.arch }

  function IdOf(e: Entry): string { Token(e) + "=" + e.evr }

  function Nvra(name: string, arch: string, evr: string): string {
    if arch == "" then name + "-" + evr else name + "-" + evr + "." + arch
  }

  /** dnfInstallSpec. */
  function InstallSpec(id: string): Option<string> {
    var p := Cut(id, '=');
    if p.None? || p.value.left == "" || p.value.right == "" then None
    else
      var t := SplitNameArch(p.value.left);
      Some(Nvra(t.left, t.right, p.value.right))
  }

  // ---------------------------------------------------------------- fields and lines

  predicate NoSpace(s: string) { forall c :: c in s ==> !IsSpace(c) }

  predicate Word(s: string) { s != "" && NoSpace(s) }

  predicate Blanks(s: string) { forall c :: c in s ==> c == ' ' }

  function WordEnd(s: string): (n: nat)
    ensures n <= |s| && NoSpace(s[..n]) && (n < |s| ==> IsSpace(s[n]))
  {
    if s == "" || IsSpace(s[0]) then 0
    else
      var n := WordEnd(s[1..]);
      assert s[..n + 1] == [s[0]] + s[1..][..n];
      n + 1
  }

  /** strings.Fields. */
  function Fields(s: string): (r: seq<string>)
    decreases |s|
  {
    if s == "" then []
    else if IsSpace(s[0]) then Fields(s[1..])
    else
      var n := WordEnd(s);
      assert n > 0;
      [s[..n]] + Fields(s[n..])
  }

  lemma WordEndIs(w: string, rest: string)
    requires NoSpace(w) && (rest != "" ==> IsSpace(rest[0]))
    ensures WordEnd(w + rest) == |w|
  {
    hide WordEnd, IsSpace;
    var s, n := w + rest, WordEnd(w + rest);
    assert forall i :: 0 <= i < |w| ==> s[i] == w[i] && w[i] in w;
    assert forall i :: 0 <= i < n ==> s[i] in s[..n];
    assert rest != "" ==> s[|w|] == rest[0];
  }

  lemma NoFields()
    ensures Fields("") == []
  {
  }

  lemma FieldsWord(w: string, rest: string)
    requires Word(w) && (rest != "" ==> IsSpace(rest[0]))
    ensures Fields(w + rest) == [w] + Fields(rest)
  {
    var s := w + rest;
    WordEndIs(w, rest);
    assert s[0] == w[0] && w[0] in w;
    assert s[..|w|] == w && s[|w|..] == rest;
  }

  lemma {:induction false} FieldsBlanks(pad: string, rest: string)
    requires Blanks(pad)
    ensures Fields(pad + rest) == Fields(rest)
  {
    if pad == "" {
      assert pad + rest == rest;
    } else {
      assert pad[0] in pad && (pad + rest)[1..] == pad[1..] + rest;
      assert forall c :: c in pad[1..] ==> c in pad;
      FieldsBlanks(pad[1..], rest);
    }
  }

  lemma TrimBlanks(pad: string, s: string)
    requires Blanks(pad) && s != "" && Trimmed(s)
    ensures Trim(pad + s) == s
  {
    TrimPads(pad, s, "");
    assert pad + s + "" == pad + s;
  }

  /** strings.Lines, without the line ends. */
  function TextLines(s: string): (r: seq<string>)
    decreases |s|
  {
    if s == "" then []
    else
      var i := IndexOf(s, '\n');
      if i < 0 then [s] else [s[..i]] + TextLines(s[i + 1..])
  }

  function Text(lines: seq<string>): string {
    if lines == [] then "" else lines[0] + ['\n'] + Text(lines[1..])
  }

  lemma {:induction false} TextLinesOfText(lines: seq<string>)
    requires forall l :: l in lines ==> '\n' !in l
    ensures TextLines(Text(lines)) == lines
  {
    if lines != [] {
      TextLinesOfText(lines[1..]);
      CutIs(lines[0], '\n', Text(lines[1..]));
    }
  }

  // ---------------------------------------------------------------- the parser

  /** An informational line, by its first word and what follows it. */
  datatype Banner = Banner(first: string, rest: string)

  function Shown(b: Banner): string { if b.rest == "" then b.first else b.first + " " + b.rest }

  const OBSOLETING := Banner("Obsoleting", "Packages")

  /** dnfSkipPrefixes. */
  const BANNERS: seq<Banner> := [
    Banner("Last", "metadata expiration check"), Banner("Loaded", "plugins"), Banner("Dependencies", "resolved"),
    Banner("Security:", ""), OBSOLETING, Banner("Updating", "Subscription Management"),
    Banner("Waiting", "for process with pid")
  ]

  predicate SkipLine(line: string) { exists b :: b in BANNERS && Shown(b) <= line }

  /** What the loop carries: entries so far, a wrapped name waiting for its columns, and whether the
      obsoleting section has begun. */
  datatype Reader = Reader(entries: seq<Entry>, pending: string, done: bool)

  predicate LooksLikeAName(s: string) { '.' in s || '-' in s }

  function MakeEntry(token: string, evr: string, repo: string): Entry {
    var t := SplitNameArch(token);
    Entry(t.left, t.right, evr, repo)
  }

  function Feed(r: Reader, line: string): Reader {
    var t := Trim(line);
    if r.done then r
    else if t == "" then r.(pending := "")
    else if Shown(OBSOLETING) <= t then r.(done := true)
    else if SkipLine(t) then r.(pending := "")
    else
      var f := Fields(t);
      if r.pending != "" && |f| == 2 then Reader(r.entries + [MakeEntry(r.pending, f[0], f[1])], "", false)
      else if |f| == 1 then (if LooksLikeAName(f[0]) then r.(pending := f[0]) else r)
      else if |f| >= 3 then Reader(r.entries + [MakeEntry(f[0], f[1], f[2])], "", false)
      else r.(pending := "")
  }

  function FeedAll(r: Reader, lines: seq<string>): Reader {
    if lines == [] then r else Feed(FeedAll(r, lines[..|lines| - 1]), lines[|lines| - 1])
  }

  const START := Reader([], "", false)

  function Parse(text: string): seq<Entry> { FeedAll(START, TextLines(text)).entries }

  method IsSkipLine(line: string) returns (b: bool)
    ensures b == SkipLine(line)
  {
    for i := 0 to |BANNERS|
      invariant forall k :: 0 <= k < i ==> !(Shown(BANNERS[k]) <= line)
    {
      if Shown(BANNERS[i]) <= line {
        assert BANNERS[i] in BANNERS;
        return true;
      }
    }
    return false;
  }

  lemma {:induction false} DoneStays(r: Reader, lines: seq<string>)
    requires r.done
    ensures FeedAll(r, lines) == r
  {
    if lines != [] {
      DoneStays(r, lines[..|lines| - 1]);
    }
  }

  lemma {:induction false} FeedConcat(r: Reader, a: seq<string>, b: seq<string>)
    ensures FeedAll(r, a + b) == FeedAll(FeedAll(r, a), b)
  {
    hide Feed;
    if b == [] {
      assert a + b == a;
    } else {
      assert (a + b)[..|a + b| - 1] == a + b[..|b| - 1];
      FeedConcat(r, a, b[..|b| - 1]);
    }
  }

  method ParseCheckUpdate(text: string) returns (entries: seq<Entry>)
    ensures entries == Parse(text)
  {
    entries := [];
    var lines, pending := TextLines(text), "";
    for i := 0 to |lines|
      invariant FeedAll(START, lines[..i]) == Reader(entries, pending, false)
    {
      hide Fields, Trim, SplitNameArch, SkipLine, Shown;
      assert lines[..i + 1][..i] == lines[..i];
      var t := Trim(lines[i]);
      if t == "" {
        pending := "";
        continue;
      }
      if Shown(OBSOLETING) <= t {
        assert lines == lines[..i + 1] + lines[i + 1..];
        FeedConcat(START, lines[..i + 1], lines[i + 1..]);
        DoneStays(FeedAll(START, lines[..i + 1]), lines[i + 1..]);
        return;
      }
      var skip := IsSkipLine(t);
      if skip {
        pending := "";
        continue;
      }
      var f := Fields(t);
      if pending != "" && |f| == 2 {
        entries, pending := entries + [MakeEntry(pending, f[0], f[1])], "";
      } else if |f| == 1 {
        if LooksLikeAName(f[0]) {
          pending := f[0];
        }
      } else if |f| >= 3 {
        entries, pending := entries + [MakeEntry(f[0], f[1], f[2])], "";
      } else {
        pending := "";
      }
    }
    assert lines[..|lines|] == lines;
  }
}
