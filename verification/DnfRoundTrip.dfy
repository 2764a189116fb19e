/**
 Printing any page of well-formed entries, wrapped or not, and parsing gives the entries back.
 */
module DnfRoundTrip {
  import opened Basics
  import opened Strings
  import opened PackageIds
  import opened DnfParse

  /** Three columns that are words; no "=" in a name, and a name without an architecture does not end in
      one. */
  predicate WellFormed(e: Entry) {
    && Word(e.name) && Word(e.evr) && Word(e.repo) && '=' !in e.name
    && (e.arch == "" || e.arch in ARCHES) && (e.arch == "" ==> SplitNameArch(e.name).right == "")
  }

  /** One entry as printed: its columns set apart by blanks, wrapped after the first or not. */
  datatype Item = Item(e: Entry, wrapped: bool, pad: string, gap: string)

  predicate Laid(it: Item) {
    WellFormed(it.e) && Blanks(it.pad) && Blanks(it.gap) && it.pad != "" && it.gap != ""
  }

  /** No line of it passes for a banner, and a wrapped name passes for a name. */
  predicate Printable(it: Item) {
    && Laid(it)
    && if it.wrapped then LooksLikeAName(Token(it.e)) && !SkipLine(Token(it.e)) && !SkipLine(Columns(it))
       else !SkipLine(Token(it.e) + it.pad + Columns(it))
  }

  function Columns(it: Item): string { it.e.evr + it.gap + it.e.repo }

  function Printed(it: Item): seq<string> {
    if it.wrapped then [Token(it.e), it.pad + Columns(it)] else [Token(it.e) + it.pad + Columns(it)]
  }

  // ---------------------------------------------------------------- tokens and ids

  lemma ArchIsPlain(arch: string)
    requires arch in ARCHES
    ensures arch != "" && forall c :: c in arch ==> AlphaNumeric(c, false) || c == '_'
  {
  }

  lemma ArchHasNoOddChars(arch: string)
    requires arch in ARCHES
    ensures arch != "" && '.' !in arch && '=' !in arch && ':' !in arch && NoSpace(arch)
  {
    ArchIsPlain(arch);
  }

  /** splitNameArch undoes the joining. */
  lemma SplitOfToken(e: Entry)
    requires WellFormed(e)
    ensures SplitNameArch(Token(e)) == Pair(e.name, e.arch)
  {
    if e.arch != "" {
      ArchHasNoOddChars(e.arch);
      LastIndexIs(e.name, '.', e.arch);
      var t := e.name + ['.'] + e.arch;
      assert Token(e) == t;
      assert t[..|e.name|] == e.name && t[|e.name| + 1..] == e.arch;
    }
  }

  lemma TokenIsAWord(e: Entry)
    requires WellFormed(e)
    ensures Word(Token(e)) && '=' !in Token(e) && (':' !in e.name ==> ':' !in Token(e))
  {
    if e.arch != "" {
      ArchHasNoOddChars(e.arch);
      assert forall c :: c in Token(e) ==> c in e.name || c == '.' || c in e.arch;
    }
  }

  lemma ArchComesOff(left: string, arch: string)
    requires arch in ARCHES && '.' !in arch
    ensures SplitNameArch(left + "." + arch) == Pair(left, arch)
  {
    hide LastIndexOf;
    LastIndexIs(left, '.', arch);
    var s := left + "." + arch;
    assert s == left + ['.'] + arch && s[..|left|] == left && s[|left| + 1..] == arch;
  }

  /** The id of an entry turns back into the name, version and architecture dnf installs by, from which the
      architecture can be taken off again. */
  lemma SpecOfIdIsNvra(e: Entry)
    requires WellFormed(e)
    ensures InstallSpec(IdOf(e)) == Some(Nvra(e.name, e.arch, e.evr))
    ensures if e.arch == "" then Nvra(e.name, e.arch, e.evr) == e.name + "-" + e.evr
            else SplitNameArch(Nvra(e.name, e.arch, e.evr)) == Pair(e.name + "-" + e.evr, e.arch)
  {
    if e.arch != "" {
      ArchHasNoOddChars(e.arch);
      ArchComesOff(e.name + "-" + e.evr, e.arch);
    }
    hide SplitNameArch;
    TokenIsAWord(e);
    SplitOfToken(e);
    CutIs(Token(e), '=', e.evr);
  }

  // ---------------------------------------------------------------- no printed line is a banner

  /** A banner of several words starts with a letter, and so does its second word. */
  predicate Worded(b: Banner) {
    && Word(b.first) && !('0' <= b.first[0] <= '9')
    && (b.rest == "" || (!IsSpace(b.rest[0]) && !('0' <= b.rest[0] <= '9')))
  }

  lemma BannersHaveNoSpace(i: nat)
    requires i < |BANNERS|
    ensures NoSpace(BANNERS[i].first)
  {
  }

  lemma BannersAreWorded(b: Banner)
    requires b in BANNERS
    ensures Worded(b) && (b.rest == "" ==> ':' in b.first)
  {
    hide NoSpace;
    var i :| 0 <= i < |BANNERS| && BANNERS[i] == b;
    BannersHaveNoSpace(i);
  }

  /** It is not a prefix of columns whose second starts with a digit, unless it is one word. */
  lemma NotColumns(b: Banner, token: string, pad: string, rest: string)
    requires Worded(b) && b.rest != ""
    requires NoSpace(token) && Blanks(pad) && pad != "" && rest != "" && '0' <= rest[0] <= '9'
    ensures !(Shown(b) <= token + pad + rest)
  {
    var line, p, k := token + pad + rest, Shown(b), |b.first|;
    assert forall i :: 0 <= i < |token| ==> line[i] == token[i] && token[i] in token;
    assert forall i :: 0 <= i < k ==> p[i] == b.first[i] && b.first[i] in b.first;
    assert p[k] == ' ' && p[k + 1] == b.rest[0];
    assert forall i :: 0 <= i < |pad| ==> line[|token| + i] == pad[i] && pad[i] in pad;
    assert line[|token| + |pad|] == rest[0];
    var q := if |p| <= |line| then line[..|p|] else "";
    assert forall i :: 0 <= i < |q| ==> q[i] == line[i];
    assert |p| <= |line| ==> q[k] == line[k] && q[k + 1] == line[k + 1];
    assert |token| < |q| ==> q[|token|] == line[|token|] && IsSpace(q[|token|]);
    assert k < |token| ==> !IsSpace(line[k]);
  }

  lemma NotAWord(b: Banner, s: string)
    requires b.rest != "" && NoSpace(s)
    ensures !(Shown(b) <= s)
  {
    assert Shown(b)[|b.first|] == ' ';
    assert |b.first| < |s| ==> s[|b.first|] in s;
  }

  lemma OneWordBanner(b: Banner, token: string, tail: string)
    requires b.rest == "" && Word(b.first) && ':' in b.first && ':' !in token && (tail != "" ==> IsSpace(tail[0]))
    ensures !(Shown(b) <= token + tail)
  {
    var line, p := token + tail, b.first;
    assert forall i :: 0 <= i < |p| ==> p[i] in p;
    assert forall i :: 0 <= i < |token| ==> line[i] == token[i] && token[i] in token;
    var k :| 0 <= k < |p| && p[k] == ':';
    assert tail != "" ==> line[|token|] == tail[0];
  }

  /** A version that starts with a digit and a name without a colon, as package versions and names do. */
  predicate Usual(e: Entry) { WellFormed(e) && ':' !in e.name && '0' <= e.evr[0] <= '9' }

  /** Neither a full line, nor a wrapped name, nor wrapped columns of a usual entry is skipped. */
  lemma FullLineIsNotSkipped(it: Item)
    requires Laid(it) && Usual(it.e)
    ensures !SkipLine(Token(it.e) + it.pad + Columns(it))
  {
    TokenIsAWord(it.e);
    var token, rest := Token(it.e), Columns(it);
    assert it.pad[0] in it.pad && (it.pad + rest)[0] == it.pad[0];
    hide Token, Worded;
    forall b | b in BANNERS ensures !(Shown(b) <= token + it.pad + rest) {
      BannersAreWorded(b);
      if b.rest == "" {
        OneWordBanner(b, token, it.pad + rest);
        assert token + (it.pad + rest) == token + it.pad + rest;
      } else {
        NotColumns(b, token, it.pad, rest);
      }
    }
  }

  lemma WrappedNameIsNotSkipped(e: Entry)
    requires Usual(e)
    ensures !SkipLine(Token(e))
  {
    TokenIsAWord(e);
    var token := Token(e);
    hide Token, Worded;
    forall b | b in BANNERS ensures !(Shown(b) <= token) {
      BannersAreWorded(b);
      if b.rest == "" {
        OneWordBanner(b, token, "");
        assert token + "" == token;
      } else {
        NotAWord(b, token);
      }
    }
  }

  lemma ColumnsAreNotSkipped(it: Item)
    requires Usual(it.e)
    ensures !SkipLine(Columns(it))
  {
    assert Columns(it)[0] == it.e.evr[0];
    forall b | b in BANNERS ensures !(Shown(b) <= Columns(it)) {
      BannersAreWorded(b);
      assert Shown(b)[0] == b.first[0];
    }
  }

  /** A usual entry can be printed on one line, and wrapped if its name column has a dot or a dash. */
  lemma UsualIsPrintable(it: Item)
    requires Laid(it) && Usual(it.e) && (it.wrapped ==> LooksLikeAName(Token(it.e)))
    ensures Printable(it)
  {
    hide SkipLine, Token, Columns;
    FullLineIsNotSkipped(it);
    WrappedNameIsNotSkipped(it.e);
    ColumnsAreNotSkipped(it);
  }

  // ---------------------------------------------------------------- what each printed line parses to

  lemma ColumnsAre(it: Item)
    requires Laid(it)
    ensures Fields(Columns(it)) == [it.e.evr, it.e.repo] && Trimmed(Columns(it)) && Columns(it) != ""
  {
    hide Fields, SplitNameArch;
    var c := Columns(it);
    assert it.gap[0] in it.gap && (it.gap + it.e.repo)[0] == it.gap[0];
    FieldsWord(it.e.evr, it.gap + it.e.repo);
    FieldsBlanks(it.gap, it.e.repo);
    FieldsWord(it.e.repo, "");
    NoFields();
    assert it.e.repo + "" == it.e.repo && c == it.e.evr + (it.gap + it.e.repo);
    assert c[0] == it.e.evr[0] && c[0] in it.e.evr;
    assert c[|c| - 1] == it.e.repo[|it.e.repo| - 1] && c[|c| - 1] in it.e.repo;
  }

  lemma FullLineIs(it: Item)
    requires Laid(it)
    ensures var l := Token(it.e) + it.pad + Columns(it);
            Fields(l) == [Token(it.e), it.e.evr, it.e.repo] && Trim(l) == l && l != ""
  {
    TokenIsAWord(it.e);
    ColumnsAre(it);
    var token, c := Token(it.e), Columns(it);
    hide Token, Columns, WellFormed;
    var l := token + it.pad + c;
    assert it.pad[0] in it.pad && (it.pad + c)[0] == it.pad[0];
    FieldsWord(token, it.pad + c);
    FieldsBlanks(it.pad, c);
    assert l == token + (it.pad + c);
    assert l[0] == token[0] && token[0] in token;
    assert l[|l| - 1] == c[|c| - 1];
  }

  /** An item printed on one line, read whether or not a name is pending. */
  lemma FullLineReads(it: Item, r: Reader)
    requires Printable(it) && !it.wrapped && !r.done
    ensures FeedAll(r, Printed(it)) == Reader(r.entries + [it.e], "", false)
  {
    FullLineIs(it);
    SplitOfToken(it.e);
    var l := Token(it.e) + it.pad + Columns(it);
    assert OBSOLETING in BANNERS && !(Shown(OBSOLETING) <= l);
    hide Token, Columns, WellFormed, SkipLine, Shown, Fields, Trim, SplitNameArch;
    OneLine(r, l);
  }

  lemma OneLine(r: Reader, l: string)
    ensures FeedAll(r, [l]) == Feed(r, l)
  {
    hide Feed;
    assert FeedAll(r, [l][..0]) == r;
  }

  lemma TwoLines(r: Reader, a: string, b: string)
    ensures FeedAll(r, [a, b]) == Feed(Feed(r, a), b)
  {
    hide Feed;
    assert [a, b][..1] == [a];
    OneLine(r, a);
  }

  lemma WrappedNameReads(e: Entry, r: Reader)
    requires WellFormed(e) && !r.done && !SkipLine(Token(e))
    ensures Feed(r, Token(e)) == if LooksLikeAName(Token(e)) then r.(pending := Token(e)) else r
  {
    TokenIsAWord(e);
    var t := Token(e);
    assert t[0] in t && t[|t| - 1] in t;
    FieldsWord(t, "");
    assert t + "" == t;
    assert OBSOLETING in BANNERS && !(Shown(OBSOLETING) <= t);
    hide Token, WellFormed, SkipLine, Shown, Fields;
  }

  lemma ColumnsRead(it: Item, r: Reader)
    requires Laid(it) && !r.done && !SkipLine(Columns(it))
    ensures Feed(r, it.pad + Columns(it)) ==
            if r.pending == "" then r
            else Reader(r.entries + [MakeEntry(r.pending, it.e.evr, it.e.repo)], "", false)
  {
    ColumnsAre(it);
    TrimBlanks(it.pad, Columns(it));
    assert OBSOLETING in BANNERS && !(Shown(OBSOLETING) <= Columns(it));
    hide Columns, WellFormed, SkipLine, Shown, Fields, Trim, SplitNameArch;
  }

  lemma WrappedReads(it: Item, r: Reader)
    requires Printable(it) && it.wrapped && !r.done
    ensures FeedAll(r, Printed(it)) == Reader(r.entries + [it.e], "", false)
  {
    TokenIsAWord(it.e);
    SplitOfToken(it.e);
    WrappedNameReads(it.e, r);
    ColumnsRead(it, r.(pending := Token(it.e)));
    hide Feed, Token, Columns, WellFormed, SplitNameArch;
    TwoLines(r, Token(it.e), it.pad + Columns(it));
  }

  // ---------------------------------------------------------------- the round trip

  lemma PrintedHasNoNewline(it: Item, l: string)
    requires Printable(it) && l in Printed(it)
    ensures '\n' !in l
  {
    TokenIsAWord(it.e);
    hide Token;
    assert IsSpace('\n');
    assert forall c :: c in l ==> c in Token(it.e) || c in it.pad || c in it.e.evr || c in it.gap || c in it.e.repo;
  }

  /** What else may stand among the entries: blank lines, and banners other than the obsoleting one. */
  predicate Noise(l: string) {
    '\n' !in l && !(Shown(OBSOLETING) <= Trim(l)) && (Trim(l) == "" || SkipLine(Trim(l)))
  }

  /** An entry, noise, or a word on its own that no columns follow. */
  datatype Block = Shows(it: Item) | Says(line: string) | Stray(word: string)

  predicate Readable(b: Block) {
    match b
    case Shows(it) => Printable(it)
    case Says(line) => Noise(line)
    case Stray(word) => Word(word) && !SkipLine(word)
  }

  function LinesOf(b: Block): seq<string> {
    match b
    case Shows(it) => Printed(it)
    case Says(line) => [line]
    case Stray(word) => [word]
  }

  function Page(blocks: seq<Block>): seq<string> {
    if blocks == [] then []
    else
      Page(blocks[..|blocks| - 1]) + LinesOf(blocks[|blocks| - 1])
  }

  function Listed(blocks: seq<Block>): seq<Entry> {
    if blocks == [] then []
    else
      var b := blocks[|blocks| - 1];
      Listed(blocks[..|blocks| - 1]) + if b.Shows? then [b.it.e] else []
  }

  lemma NoiseAddsNothing(r: Reader, l: string)
    requires Noise(l) && !r.done
    ensures FeedAll(r, [l]) == r.(pending := "")
  {
    OneLine(r, l);
    hide Fields, Trim, Shown, SkipLine;
  }

  lemma StrayAddsNothing(r: Reader, w: string)
    requires Word(w) && !SkipLine(w) && !r.done
    ensures FeedAll(r, [w]) == if LooksLikeAName(w) then r.(pending := w) else r
  {
    OneLine(r, w);
    WordIsTrimmed(w);
    FieldsWord(w, "");
    NoFields();
    assert w + "" == w;
    assert OBSOLETING in BANNERS && !(Shown(OBSOLETING) <= w);
    hide SkipLine, Shown, Fields, Trim;
  }

  lemma BlockReads(b: Block, r: Reader)
    requires Readable(b) && !r.done
    ensures var t := FeedAll(r, LinesOf(b)); t.entries == r.entries + (if b.Shows? then [b.it.e] else []) && !t.done
    ensures forall l :: l in LinesOf(b) ==> '\n' !in l
  {
    hide Printable, Printed, Feed, FeedAll, SkipLine;
    match b
    case Says(line) => NoiseAddsNothing(r, line);
    case Stray(word) =>
      StrayAddsNothing(r, word);
      assert IsSpace('\n');
    case Shows(it) =>
      forall l | l in Printed(it) ensures '\n' !in l {
        PrintedHasNoNewline(it, l);
      }
      if it.wrapped {
        WrappedReads(it, r);
      } else {
        FullLineReads(it, r);
      }
  }

  lemma {:induction false} PageReads(blocks: seq<Block>)
    requires forall b :: b in blocks ==> Readable(b)
    ensures var t := FeedAll(START, Page(blocks)); t.entries == Listed(blocks) && !t.done
    ensures forall l :: l in Page(blocks) ==> '\n' !in l
  {
    hide Readable, LinesOf, Feed;
    if blocks != [] {
      var front, b := blocks[..|blocks| - 1], blocks[|blocks| - 1];
      PageReads(front);
      FeedConcat(START, Page(front), LinesOf(b));
      BlockReads(b, FeedAll(START, Page(front)));
    }
  }

  /** Noise between a wrapped name and its columns costs the entry. */
  lemma InterruptedIsDropped(it: Item, noise: string, r: Reader)
    requires Laid(it) && Noise(noise) && !r.done && !SkipLine(Token(it.e))
    ensures FeedAll(r, [Token(it.e), noise, it.pad + Columns(it)]).entries == r.entries
  {
    hide Feed, WellFormed, Columns, Token, SkipLine, Fields;
    var name, columns := Token(it.e), it.pad + Columns(it);
    assert [name, noise, columns] == [name] + [noise] + [columns];
    FeedConcat(r, [name] + [noise], [columns]);
    FeedConcat(r, [name], [noise]);
    OneLine(r, name);
    WrappedNameReads(it.e, r);
    NoiseAddsNothing(Feed(r, name), noise);
    var t := Feed(r, name).(pending := "");
    OneLine(t, columns);
    ColumnsAloneAddNothing(it, t);
  }

  /** Printing any page of well-formed entries, each on one line or wrapped after its name, with any blanks
      between columns, noise and stray words anywhere between them, and perhaps the obsoleting section with
      anything in it, and parsing the text gives exactly the entries before that section. */
  lemma RoundTrip(blocks: seq<Block>, section: seq<string>)
    requires forall b :: b in blocks ==> Readable(b)
    requires section != [] ==> Shown(OBSOLETING) <= Trim(section[0])
    requires forall l :: l in section ==> '\n' !in l
    ensures Parse(Text(Page(blocks) + section)) == Listed(blocks)
  {
    hide Readable, Page, Text, TextLines, Feed, Shown;
    PageReads(blocks);
    TextLinesOfText(Page(blocks) + section);
    FeedConcat(START, Page(blocks), section);
    if section != [] {
      SectionIsNotRead(FeedAll(START, Page(blocks)), section);
    }
  }

  lemma SectionIsNotRead(r: Reader, section: seq<string>)
    requires !r.done && section != [] && Shown(OBSOLETING) <= Trim(section[0])
    ensures FeedAll(r, section).entries == r.entries
  {
    hide Fields, SkipLine, Trim;
    var t := Feed(r, section[0]);
    assert section == [section[0]] + section[1..];
    assert Trim(section[0]) != "" && t.done && t.entries == r.entries;
    FeedConcat(r, [section[0]], section[1..]);
    OneLine(r, section[0]);
    DoneStays(t, section[1..]);
  }

  /** A line that passes for a banner adds nothing. */
  lemma BannerAddsNothing(r: Reader, l: string)
    requires Trim(l) != "" && SkipLine(Trim(l))
    ensures Feed(r, l).entries == r.entries && (r.pending == "" ==> Feed(r, l).pending == "")
  {
    hide Fields, Trim, Shown, SkipLine;
  }

  /** Columns with no name pending add nothing. */
  lemma ColumnsAloneAddNothing(it: Item, r: Reader)
    requires Laid(it) && r.pending == ""
    ensures Feed(r, it.pad + Columns(it)).entries == r.entries
  {
    hide Columns, SkipLine, WellFormed, Fields;
    if !r.done {
      if SkipLine(Columns(it)) {
        ColumnsAre(it);
        TrimBlanks(it.pad, Columns(it));
        BannerAddsNothing(r, it.pad + Columns(it));
      } else {
        ColumnsRead(it, r);
      }
    }
  }

  /** Exactly which printed entries are read back: one on a single line if the line does not pass for a
      banner; one wrapped after its name if neither line does and the name column has a dot or a dash. */
  lemma EntryReadIff(it: Item)
    requires Laid(it)
    ensures FeedAll(START, Printed(it)).entries == [it.e] <==> Printable(it)
  {
    if it.wrapped {
      WrappedEntryIff(it);
    } else {
      var l := Token(it.e) + it.pad + Columns(it);
      OneLine(START, l);
      FullLineIs(it);
      hide Feed, FeedAll, Columns, Token, SkipLine, WellFormed, Fields;
      if SkipLine(l) {
        BannerAddsNothing(START, l);
      } else {
        FullLineReads(it, START);
      }
    }
  }

  lemma WrappedEntryIff(it: Item)
    requires Laid(it) && it.wrapped
    ensures FeedAll(START, Printed(it)).entries == [it.e] <==> Printable(it)
  {
    hide Feed, FeedAll, Columns, Token, SkipLine, WellFormed, Fields;
    var t, c := Token(it.e), it.pad + Columns(it);
    TokenIsAWord(it.e);
    WordIsTrimmed(t);
    TwoLines(START, t, c);
    if Printable(it) {
      WrappedReads(it, START);
    } else if SkipLine(t) {
      BannerAddsNothing(START, t);
      ColumnsAloneAddNothing(it, Feed(START, t));
    } else {
      WrappedNameReads(it.e, START);
      if LooksLikeAName(t) {
        ColumnsAre(it);
        TrimBlanks(it.pad, Columns(it));
        BannerAddsNothing(START.(pending := t), c);
      } else {
        ColumnsAloneAddNothing(it, START);
      }
    }
  }

  lemma WordIsTrimmed(t: string)
    requires Word(t)
    ensures Trim(t) == t
  {
    assert t[0] in t && t[|t| - 1] in t;
  }
}
