/**
 testsinfo/docstring.py: the parameter sections of a module docstring.

 A line is what is left of it between its white space, with the width of its indent; Cut makes one of a raw line.
 */
module Docstrings {
  import opened Common

  datatype Line = Line(indent: nat, text: string)

  const BLANK: Line := Line(0, "")

  function Rstrip(s: string): string {
    if s != [] && IsSpace(s[|s| - 1]) then Rstrip(s[..|s| - 1]) else s
  }

  function Lstrip(s: string): string {
    if s != [] && IsSpace(s[0]) then Lstrip(s[1..]) else s
  }

  lemma {:induction false} LstripShortens(s: string)
    ensures |Lstrip(s)| <= |s|
  {
    if s != [] && IsSpace(s[0]) { LstripShortens(s[1..]); }
  }

  function Cut(raw: string): Line {
    var line := Rstrip(raw);
    LstripShortens(line);
    Line(|line| - |Lstrip(line)|, Lstrip(line))
  }

  // ---- descriptions ----

  /** [-*] followed by white space or the end. */
  predicate IsItem(text: string) {
    text != [] && (text[0] == '-' || text[0] == '*') && (|text| == 1 || IsSpace(text[1]))
  }

  datatype Chunk = Chunk(indent: nat, item: bool, text: string, lead: bool)

  datatype Chunks = Chunks(all: seq<Chunk>, blank: bool)

  function Take(c: Chunks, l: Line): Chunks {
    if l.text == "" then c.(blank := c.all != [])
    else if IsItem(l.text) || c.blank || c.all == [] then
      Chunks(c.all + [Chunk(l.indent, IsItem(l.text), l.text, c.blank)], false)
    else
      var last := c.all[|c.all| - 1];
      c.(all := c.all[..|c.all| - 1] + [last.(text := last.text + " " + l.text)])
  }

  function TakeAll(c: Chunks, lines: seq<Line>): Chunks {
    if lines == [] then c else Take(TakeAll(c, lines[..|lines| - 1]), lines[|lines| - 1])
  }

  const NO_CHUNKS: Chunks := Chunks([], false)

  /** The indents of the items. */
  function Items(cs: seq<Chunk>): seq<nat> {
    if cs == [] then [] else Items(cs[..|cs| - 1]) + if cs[|cs| - 1].item then [cs[|cs| - 1].indent] else []
  }

  function Least(ns: seq<nat>): nat {
    if ns == [] then 0
    else if |ns| == 1 then ns[0]
    else var rest := Least(ns[..|ns| - 1]); if rest <= ns[|ns| - 1] then rest else ns[|ns| - 1]
  }

  function Pad(c: Chunk, cut: nat): nat {
    if c.item && c.indent >= cut then c.indent - cut else 0
  }

  function Written(c: Chunk, cut: nat): seq<Line> {
    (if c.lead then [BLANK] else []) + [Line(Pad(c, cut), c.text)]
  }

  function Laid(cs: seq<Chunk>, cut: nat): seq<Line> {
    if cs == [] then [] else Laid(cs[..|cs| - 1], cut) + Written(cs[|cs| - 1], cut)
  }

  /** _describe, as lines. */
  function Described(lines: seq<Line>): seq<Line> {
    var cs := TakeAll(NO_CHUNKS, lines).all;
    Laid(cs, Least(Items(cs)))
  }

  method Describe(lines: seq<Line>) returns (out: seq<Line>)
    ensures out == Described(lines)
  {
    var chunks: seq<Chunk>, blank := [], false;
    for i := 0 to |lines|
      invariant Chunks(chunks, blank) == TakeAll(NO_CHUNKS, lines[..i])
    {
      assert lines[..i + 1][..i] == lines[..i];
      var text := lines[i].text;
      if text == "" {
        blank := chunks != [];
        continue;
      }
      var item := IsItem(text);
      if item || blank || chunks == [] {
        chunks := chunks + [Chunk(lines[i].indent, item, text, blank)];
        blank := false;
      } else {
        var last := chunks[|chunks| - 1];
        chunks := chunks[..|chunks| - 1] + [last.(text := last.text + " " + text)];
      }
    }
    assert lines[..|lines|] == lines;
    var items: seq<nat> := [];
    for i := 0 to |chunks|
      invariant items == Items(chunks[..i])
    {
      assert chunks[..i + 1][..i] == chunks[..i];
      if chunks[i].item { items := items + [chunks[i].indent]; }
    }
    assert chunks[..|chunks|] == chunks;
    var cut := Least(items);
    out := [];
    for i := 0 to |chunks|
      invariant out == Laid(chunks[..i], cut)
    {
      assert chunks[..i + 1][..i] == chunks[..i];
      if chunks[i].lead { out := out + [BLANK]; }
      out := out + [Line(Pad(chunks[i], cut), chunks[i].text)];
    }
  }

  // ---- sections ----

  predicate IsHeading(l: Line) {
    l.indent == 0 && l.text in ["Parameters:", "Parameter:", "Args:", "Arguments:"]
  }

  function Heading(l: Line): string
    requires IsHeading(l)
  {
    l.text[..|l.text| - 1]
  }

  predicate IsWord(c: char) {
    'a' <= c <= 'z' || 'A' <= c <= 'Z' || '0' <= c <= '9' || c == '_'
  }

  /** The length of the word a text starts with. */
  function WordLength(s: string): nat {
    if s != [] && IsWord(s[0]) then 1 + WordLength(s[1..]) else 0
  }

  lemma {:induction false} WordFits(s: string)
    ensures WordLength(s) <= |s|
  {
    if s != [] && IsWord(s[0]) { WordFits(s[1..]); }
  }

  /** name: description */
  function Entry(text: string): Option<(string, string)> {
    WordFits(text);
    var k := WordLength(text);
    if 0 < k < |text| && text[k] == ':' then Some((text[..k], Lstrip(text[k + 1..]))) else None
  }

  type Param = (string, seq<Line>)

  datatype Section = Section(base: Option<nat>, name: Option<string>, descr: seq<Line>, entries: seq<Param>,
                             findings: seq<string>)

  const NEW_SECTION: Section := Section(None, None, [], [], [])

  function Pending(s: Section): seq<Param> {
    if s.name.None? then [] else [(s.name.value, Described(s.descr))]
  }

  function Base(s: Section, l: Line): nat {
    if s.base.Some? then s.base.value else l.indent
  }

  predicate Continues(s: Section, l: Line) {
    l.text != "" && l.indent > Base(s, l) && s.name.Some?
  }

  predicate Opens(s: Section, l: Line) {
    l.text != "" && l.indent == Base(s, l) && Entry(l.text).Some?
  }

  function Feed(s: Section, l: Line): Section {
    if l.text == "" then (if s.name.Some? then s.(descr := s.descr + [BLANK]) else s)
    else
      var base := Base(s, l);
      var s := s.(base := Some(base));
      if Continues(s, l) then s.(descr := s.descr + [Line(l.indent - base, l.text)])
      else if Opens(s, l) then
        var (name, first) := Entry(l.text).value;
        s.(entries := s.entries + Pending(s), name := Some(name), descr := [Line(0, first)])
      else s.(findings := s.findings + [l.text])
  }

  function FeedAll(s: Section, lines: seq<Line>): Section {
    if lines == [] then s else Feed(FeedAll(s, lines[..|lines| - 1]), lines[|lines| - 1])
  }

  predicate Inside(l: Line) { l.text == "" || l.indent > 0 }

  /** How many lines a section goes on for. */
  function Extent(lines: seq<Line>): (n: nat)
    ensures n <= |lines|
    ensures forall i :: 0 <= i < n ==> Inside(lines[i])
    ensures n < |lines| ==> !Inside(lines[n])
  {
    if lines == [] || !Inside(lines[0]) then 0 else 1 + Extent(lines[1..])
  }

  /** The entries, and the malformed lines with their section's heading. */
  datatype Found = Found(entries: seq<Param>, findings: seq<(string, string)>)

  function Named(heading: string, texts: seq<string>): seq<(string, string)> {
    seq(|texts|, i requires 0 <= i < |texts| => (heading, texts[i]))
  }

  /** The sections of a docstring, each read on its own. */
  function Parsed(lines: seq<Line>): Found
    decreases |lines|
  {
    if lines == [] then Found([], [])
    else if !IsHeading(lines[0]) then Parsed(lines[1..])
    else
      var n := Extent(lines[1..]);
      var s := FeedAll(NEW_SECTION, lines[1..1 + n]);
      var rest := Parsed(lines[1 + n..]);
      Found(s.entries + Pending(s) + rest.entries, Named(Heading(lines[0]), s.findings) + rest.findings)
  }

  function CutAll(doc: seq<string>): seq<Line> {
    seq(|doc|, i requires 0 <= i < |doc| => Cut(doc[i]))
  }

  /** One index over all lines: it runs through a section, steps one line past its end, and then back. */
  method Parameters(doc: seq<string>) returns (entries: seq<Param>, findings: seq<(string, string)>)
    ensures Found(entries, findings) == Parsed(CutAll(doc))
  {
    hide Cut, Described, IsHeading, FeedAll, Parsed, Plus, Named, Extent;
    var lines := CutAll(doc);
    entries, findings := [], [];
    var i, n := 0, |lines|;
    PlusNothing(Found([], []), Parsed(lines));
    assert lines[i..] == lines;
    while i < n
      invariant 0 <= i <= n
      invariant Plus(Found(entries, findings), Parsed(lines[i..])) == Parsed(lines)
      decreases n - i
    {
      Unfold(lines, i);
      if !IsHeading(lines[i]) {
        i := i + 1;
        continue;
      }
      var heading := Heading(lines[i]);
      i := i + 1;
      ghost var before := Found(entries, findings);
      var s;
      s, i := ReadSection(lines, i);
      entries := entries + s.entries;
      findings := findings + Named(heading, s.findings);
      if s.name.Some? {
        var descr := Describe(s.descr);
        entries := entries + [(s.name.value, descr)];
      }
      PlusMore(before, heading, s, Parsed(lines[i..]), entries);
    }
    assert lines[i..] == [];
    PlusNothing(Found(entries, findings), Parsed(lines[i..]));
  }

  /** The inner loop: from the line after a heading to the first line that is not inside. */
  method ReadSection(lines: seq<Line>, first: nat) returns (s: Section, end: nat)
    requires 0 < first <= |lines|
    ensures end == first + Extent(lines[first..]) <= |lines|
    ensures s == FeedAll(NEW_SECTION, lines[first..end])
  {
    hide Feed, FeedAll;
    s := NEW_SECTION;
    var i := first;
    FeedNone(lines[first..first]);
    while i < |lines|
      invariant first <= i <= first + Extent(lines[first..]) <= |lines|
      invariant s == FeedAll(NEW_SECTION, lines[first..i])
      decreases |lines| - i
    {
      var line := lines[i];
      i := i + 1;
      assert line == lines[first..][i - 1 - first];
      FeedMore(lines[first..i]);
      assert lines[first..i][..i - 1 - first] == lines[first..i - 1];
      if line.text != "" && line.indent == 0 {
        i := i - 1;
        break;
      }
      s := ReadLine(s, line);
    }
    end := i;
  }

  lemma {:induction false} FeedNone(lines: seq<Line>)
    ensures lines == [] ==> FeedAll(NEW_SECTION, lines) == NEW_SECTION
  {
  }

  lemma {:induction false} FeedMore(lines: seq<Line>)
    requires lines != []
    ensures FeedAll(NEW_SECTION, lines) == Feed(FeedAll(NEW_SECTION, lines[..|lines| - 1]), lines[|lines| - 1])
  {
  }

  method ReadLine(before: Section, line: Line) returns (s: Section)
    requires Inside(line)
    ensures s == Feed(before, line)
  {
    hide Described, Entry;
    s := before;
    if line.text == "" {
      if s.name.Some? { s := s.(descr := s.descr + [BLANK]); }
      return;
    }
    if s.base.None? { s := s.(base := Some(line.indent)); }
    var base := s.base.value;
    if line.indent > base && s.name.Some? {
      s := s.(descr := s.descr + [Line(line.indent - base, line.text)]);
      return;
    }
    var found := if line.indent == base then Entry(line.text) else None;
    if found.None? {
      s := s.(findings := s.findings + [line.text]);
      return;
    }
    if s.name.Some? {
      var descr := Describe(s.descr);
      s := s.(entries := s.entries + [(s.name.value, descr)]);
    }
    s := s.(name := Some(found.value.0), descr := [Line(0, found.value.1)]);
  }

  function Plus(a: Found, b: Found): Found {
    Found(a.entries + b.entries, a.findings + b.findings)
  }

  lemma {:induction false} Unfold(lines: seq<Line>, i: nat)
    requires i < |lines|
    ensures if !IsHeading(lines[i]) then Parsed(lines[i..]) == Parsed(lines[i + 1..])
            else var n := Extent(lines[i + 1..]); var s := FeedAll(NEW_SECTION, lines[i + 1..i + 1 + n]);
              Parsed(lines[i..]) == Plus(Found(s.entries + Pending(s), Named(Heading(lines[i]), s.findings)),
                                         Parsed(lines[i + 1 + n..]))
    ensures lines[i].text == "" ==> !IsHeading(lines[i])
  {
    hide FeedAll, Extent, Pending, Named;
    var here := lines[i..];
    assert here[1..] == lines[i + 1..];
    if IsHeading(lines[i]) {
      var n := Extent(here[1..]);
      assert here[1..1 + n] == lines[i + 1..i + 1 + n] && here[1 + n..] == lines[i + 1 + n..];
    }
  }

  lemma {:induction false} PlusNothing(a: Found, b: Found)
    ensures a == Found([], []) ==> Plus(a, b) == b
    ensures b == Parsed([]) ==> Plus(a, b) == a
  {
  }

  lemma {:induction false} PlusMore(before: Found, heading: string, s: Section, rest: Found, entries: seq<Param>)
    requires entries == before.entries + s.entries + Pending(s)
    ensures var texts := Named(heading, s.findings);
      Plus(before, Plus(Found(s.entries + Pending(s), texts), rest))
        == Plus(Found(entries, before.findings + texts), rest)
  {
  }
}
