/** What the docstring reader promises: descriptions are filled once and for all, and what is printed reads back. */
module DocstringTheorems {
  import opened Common
  import opened Docstrings

  lemma {:induction false} TakeConcat(c: Chunks, a: seq<Line>, b: seq<Line>)
    ensures TakeAll(c, a + b) == TakeAll(TakeAll(c, a), b)
  {
    hide Take;
    if b == [] {
      assert a + b == a;
    } else {
      assert (a + b)[..|a + b| - 1] == a + b[..|b| - 1];
      TakeConcat(c, a, b[..|b| - 1]);
    }
  }

  // ---- filling twice is filling once ----

  /** Chunks as they come out of lines: items and what follows a blank line start one, nothing else does. */
  ghost predicate Sound(c: Chunks) {
    && (c.all == [] ==> !c.blank)
    && (forall i :: 0 <= i < |c.all| ==> c.all[i].text != "" && c.all[i].item == IsItem(c.all[i].text))
    && (forall i :: 0 <= i < |c.all| ==> if i == 0 then !c.all[i].lead else c.all[i].item || c.all[i].lead)
  }

  lemma {:induction false} TakeAllSound(lines: seq<Line>)
    ensures Sound(TakeAll(NO_CHUNKS, lines))
  {
    hide Sound, Take;
    if lines == [] {
      assert Sound(NO_CHUNKS) by { NothingSound(); }
    } else {
      TakeAllSound(lines[..|lines| - 1]);
      TakeSound(TakeAll(NO_CHUNKS, lines[..|lines| - 1]), lines[|lines| - 1]);
    }
  }

  lemma {:induction false} NothingSound()
    ensures Sound(NO_CHUNKS)
  {
  }

  lemma {:induction false} TakeSound(c: Chunks, l: Line)
    requires Sound(c)
    ensures Sound(Take(c, l))
  {
    hide IsItem;
    if c.all != [] { ItemStays(c.all[|c.all| - 1].text, l.text); }
  }

  lemma {:induction false} ItemStays(text: string, more: string)
    requires text != ""
    ensures IsItem(text + " " + more) == IsItem(text)
  {
  }

  /** The same chunks with their indents cut. */
  function Normal(cs: seq<Chunk>, cut: nat): seq<Chunk> {
    seq(|cs|, i requires 0 <= i < |cs| => cs[i].(indent := Pad(cs[i], cut)))
  }

  lemma {:induction false} LaidTaken(cs: seq<Chunk>, cut: nat)
    requires Sound(Chunks(cs, false))
    ensures TakeAll(NO_CHUNKS, Laid(cs, cut)) == Chunks(Normal(cs, cut), false)
  {
    hide Take, Pad, Written;
    if cs != [] {
      var rest, last := cs[..|cs| - 1], cs[|cs| - 1];
      LaidTaken(rest, cut);
      TakeConcat(NO_CHUNKS, Laid(rest, cut), Written(last, cut));
      WrittenTaken(Normal(rest, cut), last, cut);
      assert Normal(cs, cut) == Normal(rest, cut) + [last.(indent := Pad(last, cut))];
    }
  }

  lemma {:induction false} WrittenTaken(cs: seq<Chunk>, c: Chunk, cut: nat)
    requires c.text != "" && c.item == IsItem(c.text) && if cs == [] then !c.lead else c.item || c.lead
    ensures TakeAll(Chunks(cs, false), Written(c, cut)) == Chunks(cs + [c.(indent := Pad(c, cut))], false)
  {
    var start, line := Chunks(cs, false), Line(Pad(c, cut), c.text);
    TakeOne(Chunks(cs, false), BLANK);
    TakeConcat(start, [BLANK], [line]);
    TakeOne(start, line);
    TakeOne(Take(start, BLANK), line);
    assert [] + [line] == [line];
  }

  lemma {:induction false} TakeOne(c: Chunks, l: Line)
    ensures TakeAll(c, [l]) == Take(c, l)
  {
    hide Take;
    assert [l][..0] == [] && TakeAll(c, []) == c;
  }

  lemma {:induction false} LeastIsLeast(ns: seq<nat>)
    requires ns != []
    ensures Least(ns) in ns && forall n <- ns :: Least(ns) <= n
  {
    if |ns| > 1 {
      LeastIsLeast(ns[..|ns| - 1]);
      assert forall n <- ns :: n in ns[..|ns| - 1] || n == ns[|ns| - 1];
    }
  }

  lemma {:induction false} ItemsMoved(cs: seq<Chunk>, ds: seq<Chunk>, width: int)
    requires |cs| == |ds| && forall i ::
      0 <= i < |cs| ==> ds[i].item == cs[i].item && (cs[i].item ==> ds[i].indent == cs[i].indent + width)
    ensures |Items(ds)| == |Items(cs)| && forall i :: 0 <= i < |Items(cs)| ==> Items(ds)[i] == Items(cs)[i] + width
  {
    if cs != [] {
      ItemsMoved(cs[..|cs| - 1], ds[..|ds| - 1], width);
    }
  }

  lemma {:induction false} LeastMoved(ns: seq<nat>, ms: seq<nat>, width: int)
    requires |ms| == |ns| > 0 && forall i :: 0 <= i < |ns| ==> ms[i] == ns[i] + width
    ensures Least(ms) == Least(ns) + width
  {
    if |ns| > 1 {
      LeastMoved(ns[..|ns| - 1], ms[..|ms| - 1], width);
    }
  }

  lemma {:induction false} ItemsAreItems(cs: seq<Chunk>)
    ensures forall c <- cs :: c.item ==> c.indent in Items(cs)
    ensures Items(cs) == [] ==> forall c <- cs :: !c.item
  {
    if cs != [] {
      ItemsAreItems(cs[..|cs| - 1]);
      assert forall c <- cs :: c in cs[..|cs| - 1] || c == cs[|cs| - 1];
    }
  }

  /** Chunks that differ only in what their cuts take away are laid out alike. */
  lemma {:induction false} LaidAlike(cs: seq<Chunk>, cut: nat, ds: seq<Chunk>, cut': nat)
    requires |cs| == |ds|
    requires forall i :: 0 <= i < |cs| ==>
      cs[i].text == ds[i].text && cs[i].lead == ds[i].lead && Pad(cs[i], cut) == Pad(ds[i], cut')
    ensures Laid(cs, cut) == Laid(ds, cut')
  {
    if cs != [] {
      LaidAlike(cs[..|cs| - 1], cut, ds[..|ds| - 1], cut');
    }
  }

  /** Moving all items, and with them the cut, changes nothing. */
  lemma {:induction false} LaidMoved(cs: seq<Chunk>, ds: seq<Chunk>, width: int)
    requires |cs| == |ds|
    requires forall i :: 0 <= i < |cs| ==>
      cs[i].text == ds[i].text && cs[i].lead == ds[i].lead && cs[i].item == ds[i].item
        && (cs[i].item ==> ds[i].indent == cs[i].indent + width)
    ensures Laid(cs, Least(Items(cs))) == Laid(ds, Least(Items(ds)))
  {
    hide Laid, Items, Least;
    ItemsMoved(cs, ds, width);
    ItemsAreItems(cs);
    ItemsAreItems(ds);
    if Items(cs) != [] {
      LeastMoved(Items(cs), Items(ds), width);
      LeastIsLeast(Items(cs));
      LeastIsLeast(Items(ds));
    }
    forall i | 0 <= i < |cs|
      ensures Pad(cs[i], Least(Items(cs))) == Pad(ds[i], Least(Items(ds)))
    {
      assert cs[i] in cs && ds[i] in ds;
    }
    LaidAlike(cs, Least(Items(cs)), ds, Least(Items(ds)));
  }

  /** A description that was filled stays as it is. */
  lemma {:induction false} DescribedTwice(lines: seq<Line>)
    ensures Described(Described(lines)) == Described(lines)
  {
    hide TakeAll, Laid, Items, Least;
    var c := TakeAll(NO_CHUNKS, lines);
    var cut := Least(Items(c.all));
    var back: int :| back + cut == 0;
    TakeAllSound(lines);
    LaidTaken(c.all, cut);
    ItemsAreItems(c.all);
    if Items(c.all) != [] { LeastIsLeast(Items(c.all)); }
    forall i | 0 <= i < |c.all| && c.all[i].item
      ensures Normal(c.all, cut)[i].indent == c.all[i].indent - cut
    {
      assert c.all[i] in c.all;
    }
    LaidMoved(c.all, Normal(c.all, cut), back);
  }

  // ---- words ----

  /** The finished words of a text, and the one being read. */
  function Reading(s: string): (seq<string>, string) {
    if s == "" then ([], "")
    else
      var (done, word) := Reading(s[..|s| - 1]);
      if IsSpace(s[|s| - 1]) then (if word == "" then done else done + [word], "") else (done, word + [s[|s| - 1]])
  }

  function Words(s: string): seq<string> {
    Reading(s).0 + if Reading(s).1 == "" then [] else [Reading(s).1]
  }

  function WordsOf(lines: seq<Line>): seq<string> {
    if lines == [] then [] else WordsOf(lines[..|lines| - 1]) + Words(lines[|lines| - 1].text)
  }

  function WordsIn(cs: seq<Chunk>): seq<string> {
    if cs == [] then [] else WordsIn(cs[..|cs| - 1]) + Words(cs[|cs| - 1].text)
  }

  lemma {:induction false} ReadingOn(a: string, b: string)
    ensures Reading(a + " " + b) == (Words(a) + Reading(b).0, Reading(b).1)
  {
    if b == "" {
      assert a + " " + b == a + " " && (a + " ")[..|a|] == a;
      assert Words(a) + [] == Words(a) && Reading(a).0 + [] == Reading(a).0;
    } else {
      var rest, last, all := b[..|b| - 1], b[|b| - 1], a + " " + b;
      ReadingOn(a, rest);
      assert all[..|all| - 1] == a + " " + rest && all[|all| - 1] == last;
      var (done, word) := Reading(rest);
      assert (Words(a) + done) + [word] == Words(a) + (done + [word]);
    }
  }

  lemma {:induction false} WordsJoin(a: string, b: string)
    ensures Words(a + " " + b) == Words(a) + Words(b)
  {
    ReadingOn(a, b);
  }

  lemma {:induction false} WordsTaken(lines: seq<Line>)
    ensures WordsIn(TakeAll(NO_CHUNKS, lines).all) == WordsOf(lines)
  {
    hide Take, Words;
    if lines != [] {
      var rest, l := lines[..|lines| - 1], lines[|lines| - 1];
      WordsTaken(rest);
      WordsTakenOne(TakeAll(NO_CHUNKS, rest), l);
    }
  }

  lemma {:induction false} WordsTakenOne(c: Chunks, l: Line)
    ensures WordsIn(Take(c, l).all) == WordsIn(c.all) + Words(l.text)
  {
    hide IsItem, Words, WordsIn;
    if l.text == "" {
      NoWords();
      assert WordsIn(c.all) + [] == WordsIn(c.all);
    } else if IsItem(l.text) || c.blank || c.all == [] {
      WordsOfOneMore(c.all, Chunk(l.indent, IsItem(l.text), l.text, c.blank));
    } else {
      WordsOfLonger(c.all, l.text);
    }
  }

  lemma {:induction false} WordsOfOneMore(cs: seq<Chunk>, c: Chunk)
    ensures WordsIn(cs + [c]) == WordsIn(cs) + Words(c.text)
  {
    hide Words;
    assert (cs + [c])[..|cs|] == cs;
  }

  /** Text joined to the last chunk. */
  lemma {:induction false} WordsOfLonger(cs: seq<Chunk>, text: string)
    requires cs != []
    ensures var (rest, last) := (cs[..|cs| - 1], cs[|cs| - 1]);
      WordsIn(rest + [last.(text := last.text + " " + text)]) == WordsIn(cs) + Words(text)
  {
    hide Words, WordsIn;
    var rest, last := cs[..|cs| - 1], cs[|cs| - 1];
    WordsOfOneMore(rest, last.(text := last.text + " " + text));
    WordsOfOneMore(rest, last);
    assert rest + [last] == cs;
    WordsJoin(last.text, text);
    assert WordsIn(rest) + (Words(last.text) + Words(text)) == WordsIn(rest) + Words(last.text) + Words(text);
  }

  lemma {:induction false} NoWords()
    ensures Words("") == []
  {
  }

  lemma {:induction false} WordsConcat(a: seq<Line>, b: seq<Line>)
    ensures WordsOf(a + b) == WordsOf(a) + WordsOf(b)
  {
    hide Words;
    if b == [] {
      assert a + b == a;
    } else {
      var rest, last := b[..|b| - 1], Words(b[|b| - 1].text);
      assert (a + b)[..|a + b| - 1] == a + rest;
      WordsConcat(a, rest);
      assert WordsOf(a + b) == WordsOf(a) + WordsOf(rest) + last;
      assert WordsOf(b) == WordsOf(rest) + last;
    }
  }

  lemma {:induction false} WordsLaid(cs: seq<Chunk>, cut: nat)
    ensures WordsOf(Laid(cs, cut)) == WordsIn(cs)
  {
    hide Words;
    if cs != [] {
      var rest, last := cs[..|cs| - 1], cs[|cs| - 1];
      WordsLaid(rest, cut);
      WordsConcat(Laid(rest, cut), Written(last, cut));
      WordsWritten(last, cut);
    }
  }

  lemma {:induction false} WordsWritten(c: Chunk, cut: nat)
    ensures WordsOf(Written(c, cut)) == Words(c.text)
  {
    hide WordsOf, Words;
    var line := Line(Pad(c, cut), c.text);
    WordsOne(line);
    WordsOne(BLANK);
    NoWords();
    WordsConcat([BLANK], [line]);
    assert [] + [line] == [line] && [] + Words(c.text) == Words(c.text);
  }

  lemma {:induction false} WordsOne(l: Line)
    ensures WordsOf([l]) == Words(l.text)
  {
    hide Words;
    assert [l][..0] == [];
  }

  /** Filling moves line breaks and indents and nothing else: the words are the same, in the same order. */
  lemma {:induction false} DescribedKeepsWords(lines: seq<Line>)
    ensures WordsOf(Described(lines)) == WordsOf(lines)
  {
    hide TakeAll, Laid;
    var cs := TakeAll(NO_CHUNKS, lines).all;
    WordsTaken(lines);
    WordsLaid(cs, Least(Items(cs)));
  }

  // ---- every line of a section counts once ----

  function NonBlank(lines: seq<Line>): nat {
    if lines == [] then 0 else NonBlank(lines[..|lines| - 1]) + if lines[|lines| - 1].text == "" then 0 else 1
  }

  /** The lines taken into a description. */
  function Continuations(lines: seq<Line>): nat {
    if lines == [] then 0
    else
      var rest, last := lines[..|lines| - 1], lines[|lines| - 1];
      Continuations(rest) + if Continues(FeedAll(NEW_SECTION, rest), last) then 1 else 0
  }

  /** Each non-blank line of a section opens an entry, continues one or is a finding, and only one of these. */
  lemma {:induction false} EveryLineOnce(lines: seq<Line>)
    ensures var s := FeedAll(NEW_SECTION, lines);
      |s.entries + Pending(s)| + |s.findings| + Continuations(lines) == NonBlank(lines)
  {
    hide Entry, Described;
    if lines != [] {
      EveryLineOnce(lines[..|lines| - 1]);
    }
  }

  // ---- printing and reading back ----

  predicate IsName(s: string) {
    s != "" && forall c <- s :: IsWord(c)
  }

  function Moved(l: Line, width: nat): Line {
    if l.text == "" then BLANK else Line(l.indent + width, l.text)
  }

  function MovedAll(lines: seq<Line>, width: nat): seq<Line> {
    seq(|lines|, i requires 0 <= i < |lines| => Moved(lines[i], width))
  }

  /** An entry as a test module may write it: a description on any lines, how much further in they stand, and whether
      the first of them stands behind the colon. */
  datatype Source = Source(name: string, descr: seq<Line>, width: nat, inline: bool)

  predicate IsSource(x: Source) {
    && IsName(x.name) && x.width > 0
    && (x.inline ==> x.descr != [] && x.descr[0].text != "" && !IsSpace(x.descr[0].text[0]) && !IsItem(x.descr[0].text))
  }

  function PrintedOne(x: Source, base: nat): seq<Line>
    requires IsSource(x)
  {
    if x.inline then
      [Line(base, x.name + ":" + (" " + x.descr[0].text))] + MovedAll(x.descr[1..], base + x.width)
    else [Line(base, x.name + ":")] + MovedAll(x.descr, base + x.width)
  }

  function PrintedAll(xs: seq<Source>, base: nat): seq<Line>
    requires forall x <- xs :: IsSource(x)
  {
    if xs == [] then [] else PrintedAll(xs[..|xs| - 1], base) + PrintedOne(xs[|xs| - 1], base)
  }

  function Printed(heading: Line, xs: seq<Source>, base: nat): seq<Line>
    requires forall x <- xs :: IsSource(x)
  {
    [heading] + PrintedAll(xs, base)
  }

  /** What an entry says: its name, and its description filled. */
  function Meant(xs: seq<Source>): seq<Param> {
    seq(|xs|, i requires 0 <= i < |xs| => (xs[i].name, Described(xs[i].descr)))
  }

  /** The same chunks, all items further in. */
  ghost predicate Deeper(c: Chunks, d: Chunks, width: nat) {
    && |d.all| == |c.all| && d.blank == c.blank
    && forall i :: 0 <= i < |c.all| ==>
         && d.all[i].text == c.all[i].text && d.all[i].lead == c.all[i].lead && d.all[i].item == c.all[i].item
         && (c.all[i].item ==> d.all[i].indent == c.all[i].indent + width)
  }

  lemma {:induction false} MovedTaken(lines: seq<Line>, width: nat)
    ensures Deeper(TakeAll(NO_CHUNKS, lines), TakeAll(NO_CHUNKS, MovedAll(lines, width)), width)
  {
    hide Deeper, Take, TakeAll;
    NothingDeeper(width);
    MovedTakenFrom(NO_CHUNKS, NO_CHUNKS, lines, width);
  }

  lemma {:induction false} MovedTakenFrom(c: Chunks, d: Chunks, lines: seq<Line>, width: nat)
    requires Deeper(c, d, width)
    ensures Deeper(TakeAll(c, lines), TakeAll(d, MovedAll(lines, width)), width)
  {
    hide Deeper, Take;
    if lines == [] {
      assert MovedAll(lines, width) == [];
    } else {
      var n := |lines| - 1;
      MovedTakenFrom(c, d, lines[..n], width);
      assert MovedAll(lines, width)[..n] == MovedAll(lines[..n], width);
      TakeDeeper(TakeAll(c, lines[..n]), TakeAll(d, MovedAll(lines[..n], width)), lines[n], width);
    }
  }

  lemma {:induction false} NothingDeeper(width: nat)
    ensures Deeper(NO_CHUNKS, NO_CHUNKS, width)
  {
  }

  lemma {:induction false} TakeDeeper(c: Chunks, d: Chunks, l: Line, width: nat)
    requires Deeper(c, d, width)
    ensures Deeper(Take(c, l), Take(d, Moved(l, width)), width)
  {
    hide IsItem;
  }

  /** A blank line in front and a deeper indent make no difference to a description. */
  lemma {:induction false} DescribedMoved(lines: seq<Line>, width: nat)
    ensures Described([BLANK] + MovedAll(lines, width)) == Described(lines)
  {
    hide TakeAll, Take, Laid, Items, Least;
    TakeConcat(NO_CHUNKS, [BLANK], MovedAll(lines, width));
    assert TakeAll(NO_CHUNKS, [BLANK]) == NO_CHUNKS by { TakeBlank(); }
    MovedTaken(lines, width);
    LaidMoved(TakeAll(NO_CHUNKS, lines).all, TakeAll(NO_CHUNKS, MovedAll(lines, width)).all, width);
  }

  /** Nor does the indent of a first line that is no item, such as one behind a colon. */
  lemma {:induction false} DescribedInline(lines: seq<Line>, width: nat)
    requires lines != [] && lines[0].text != "" && !IsItem(lines[0].text)
    ensures Described([Line(0, lines[0].text)] + MovedAll(lines[1..], width)) == Described(lines)
  {
    hide TakeAll, Laid, Items, Least;
    var first, rest := Line(0, lines[0].text), lines[1..];
    assert lines == [lines[0]] + rest;
    TakeConcat(NO_CHUNKS, [first], MovedAll(rest, width));
    TakeConcat(NO_CHUNKS, [lines[0]], rest);
    TakeOne(NO_CHUNKS, first);
    TakeOne(NO_CHUNKS, lines[0]);
    var c, d := Take(NO_CHUNKS, lines[0]), Take(NO_CHUNKS, first);
    MovedTakenFrom(c, d, rest, width);
    LaidMoved(TakeAll(c, rest).all, TakeAll(d, MovedAll(rest, width)).all, width);
  }

  lemma {:induction false} TakeBlank()
    ensures TakeAll(NO_CHUNKS, [BLANK]) == NO_CHUNKS
  {
    TakeOne(NO_CHUNKS, BLANK);
  }

  /** name:, and what follows without its leading white space. */
  lemma {:induction false} EntryOfName(name: string, rest: string)
    requires IsName(name)
    ensures Entry(name + ":" + rest) == Some((name, Lstrip(rest)))
  {
    WordOfName(name, ":" + rest);
    assert name + ":" + rest == name + (":" + rest);
    assert (name + ":" + rest)[..|name|] == name && (name + ":" + rest)[|name| + 1..] == rest;
  }

  lemma {:induction false} WordOfName(name: string, rest: string)
    requires (forall c <- name :: IsWord(c)) && (rest == "" || !IsWord(rest[0]))
    ensures WordLength(name + rest) == |name|
  {
    if name == "" {
      assert name + rest == rest;
    } else {
      assert name[0] in name && forall c <- name[1..] :: c in name;
      assert (name + rest)[1..] == name[1..] + rest;
      WordOfName(name[1..], rest);
    }
  }

  /** One space goes. */
  lemma {:induction false} LstripOne(text: string)
    requires text != "" && !IsSpace(text[0])
    ensures Lstrip(" " + text) == text
  {
    assert (" " + text)[1..] == text;
  }

  lemma {:induction false} FeedConcat(s: Section, a: seq<Line>, b: seq<Line>)
    ensures FeedAll(s, a + b) == FeedAll(FeedAll(s, a), b)
  {
    hide Feed;
    if b == [] {
      assert a + b == a;
    } else {
      assert (a + b)[..|a + b| - 1] == a + b[..|b| - 1];
      FeedConcat(s, a, b[..|b| - 1]);
    }
  }

  lemma {:induction false} FeedDescription(s: Section, lines: seq<Line>, base: nat, width: nat)
    requires s.base == Some(base) && s.name.Some? && width > 0
    ensures FeedAll(s, MovedAll(lines, base + width)) == s.(descr := s.descr + MovedAll(lines, width))
  {
    hide Entry, Described;
    if lines != [] {
      var n := |lines| - 1;
      FeedDescription(s, lines[..n], base, width);
      assert MovedAll(lines, base + width)[..n] == MovedAll(lines[..n], base + width);
      assert MovedAll(lines, width) == MovedAll(lines[..n], width) + [Moved(lines[n], width)];
    } else {
      assert s.descr + [] == s.descr;
    }
  }

  /** The section stands at this base, or has not begun. */
  predicate AtBase(s: Section, base: nat) {
    s.base == Some(base) || (s.base.None? && s.name.None?)
  }

  /** What the printed lines of an entry become. */
  function Entered(x: Source): seq<Line>
    requires IsSource(x)
  {
    if x.inline then [Line(0, x.descr[0].text)] + MovedAll(x.descr[1..], x.width)
    else [BLANK] + MovedAll(x.descr, x.width)
  }

  lemma {:induction false} FeedOne(s: Section, x: Source, base: nat)
    requires IsSource(x) && AtBase(s, base)
    ensures FeedAll(s, PrintedOne(x, base)) ==
      Section(Some(base), Some(x.name), Entered(x), s.entries + Pending(s), s.findings)
  {
    hide Entry, Described, FeedAll;
    var text := if x.inline then " " + x.descr[0].text else "";
    var line, rest := Line(base, x.name + ":" + text), if x.inline then x.descr[1..] else x.descr;
    assert x.name + ":" + "" == x.name + ":";
    EntryOfName(x.name, text);
    if x.inline { LstripOne(x.descr[0].text); }
    FeedConcat(s, [line], MovedAll(rest, base + x.width));
    assert FeedAll(s, [line]) == Feed(s, line) by { FeedLine(s, line); }
    FeedDescription(Feed(s, line), rest, base, x.width);
  }

  lemma {:induction false} EnteredIsMeant(x: Source)
    requires IsSource(x)
    ensures Described(Entered(x)) == Described(x.descr)
  {
    hide Described;
    if x.inline { DescribedInline(x.descr, x.width); } else { DescribedMoved(x.descr, x.width); }
  }

  lemma {:induction false} FeedLine(s: Section, l: Line)
    ensures FeedAll(s, [l]) == Feed(s, l)
  {
    hide Feed;
    assert [l][..0] == [] && FeedAll(s, []) == s;
  }

  lemma {:induction false} FeedPrinted(xs: seq<Source>, base: nat)
    requires forall x <- xs :: IsSource(x)
    ensures var s := FeedAll(NEW_SECTION, PrintedAll(xs, base));
      s.entries + Pending(s) == Meant(xs) && s.findings == [] && AtBase(s, base)
  {
    hide Feed, FeedAll, Described, IsSource, PrintedOne, Entered;
    if xs == [] {
      FeedNone([]);
    } else {
      var rest, x := xs[..|xs| - 1], xs[|xs| - 1];
      FeedPrinted(rest, base);
      var s := FeedAll(NEW_SECTION, PrintedAll(rest, base));
      assert x in xs;
      FeedOne(s, x, base);
      FeedConcat(NEW_SECTION, PrintedAll(rest, base), PrintedOne(x, base));
      EnteredIsMeant(x);
      assert Meant(rest) + [(x.name, Described(x.descr))] == Meant(xs);
    }
  }

  lemma {:induction false} PrintedInside(xs: seq<Source>, base: nat)
    requires base > 0 && forall x <- xs :: IsSource(x)
    ensures forall l <- PrintedAll(xs, base) :: Inside(l)
  {
    hide IsSource, PrintedOne, Inside;
    if xs != [] {
      assert xs[|xs| - 1] in xs;
      PrintedInside(xs[..|xs| - 1], base);
      OneInside(xs[|xs| - 1], base);
    }
  }

  lemma {:induction false} OneInside(x: Source, base: nat)
    requires base > 0 && IsSource(x)
    ensures forall l <- PrintedOne(x, base) :: Inside(l)
  {
  }

  /** Any list of entries, under any heading, at any indent, in any layout, is read back from what is printed, with
      filled descriptions and without a finding. */
  lemma {:induction false} PrintedReadsBack(heading: Line, xs: seq<Source>, base: nat)
    requires IsHeading(heading) && base > 0 && forall x <- xs :: IsSource(x)
    ensures Parsed(Printed(heading, xs, base)) == Found(Meant(xs), [])
  {
    hide FeedAll, Pending, IsSource, PrintedAll, IsHeading;
    var lines := Printed(heading, xs, base);
    FeedPrinted(xs, base);
    PrintedInside(xs, base);
    assert lines[1..] == PrintedAll(xs, base);
    var n := Extent(lines[1..]);
    assert n == |lines[1..]|;
    assert lines[1..1 + n] == PrintedAll(xs, base) && lines[1 + n..] == [];
    var s := FeedAll(NEW_SECTION, PrintedAll(xs, base));
    assert Named(Heading(lines[0]), []) == [] && Parsed([]) == Found([], []);
    assert s.entries + Pending(s) + [] == Meant(xs);
  }

  /** So filled descriptions come back as they are. */
  lemma {:induction false} FilledReadsBack(heading: Line, xs: seq<Source>, base: nat)
    requires IsHeading(heading) && base > 0 && forall x <- xs :: IsSource(x) && Described(x.descr) == x.descr
    ensures Parsed(Printed(heading, xs, base))
         == Found(seq(|xs|, i requires 0 <= i < |xs| => (xs[i].name, xs[i].descr)), [])
  {
    hide Parsed, Described, IsSource, IsHeading, Printed;
    PrintedReadsBack(heading, xs, base);
    assert forall i :: 0 <= i < |xs| ==> xs[i] in xs;
    assert Meant(xs) == seq(|xs|, i requires 0 <= i < |xs| => (xs[i].name, xs[i].descr));
  }

  // ---- raw lines ----

  predicate IsTrimmed(t: string) {
    t == "" || (!IsSpace(t[0]) && !IsSpace(t[|t| - 1]))
  }

  function Spaces(n: nat): string { seq(n, _ => ' ') }

  lemma {:induction false} CutOfRaw(l: Line)
    requires IsTrimmed(l.text) && (l.text == "" ==> l.indent == 0)
    ensures Cut(Spaces(l.indent) + l.text) == l
  {
    var raw := Spaces(l.indent) + l.text;
    LstripSpaces(l.indent, l.text);
  }

  lemma {:induction false} LstripSpaces(n: nat, t: string)
    requires t == "" || !IsSpace(t[0])
    ensures Lstrip(Spaces(n) + t) == t
  {
    if n > 0 {
      assert (Spaces(n) + t)[1..] == Spaces(n - 1) + t;
      LstripSpaces(n - 1, t);
    } else {
      assert Spaces(n) + t == t;
    }
  }

  function Raw(lines: seq<Line>): seq<string> {
    seq(|lines|, i requires 0 <= i < |lines| => Spaces(lines[i].indent) + lines[i].text)
  }

  predicate IsClean(l: Line) { IsTrimmed(l.text) && (l.text == "" ==> l.indent == 0) }

  lemma {:induction false} PrintedClean(xs: seq<Source>, base: nat)
    requires forall x <- xs :: IsSource(x) && forall l <- x.descr :: IsTrimmed(l.text)
    ensures forall l <- PrintedAll(xs, base) :: IsClean(l)
  {
    hide IsSource;
    if xs != [] {
      var rest, x := xs[..|xs| - 1], xs[|xs| - 1];
      PrintedClean(rest, base);
      assert x in xs;
      OneClean(x, base);
    }
  }

  lemma {:induction false} OneClean(x: Source, base: nat)
    requires IsSource(x) && forall l <- x.descr :: IsTrimmed(l.text)
    ensures forall l <- PrintedOne(x, base) :: IsClean(l)
  {
    assert x.name[0] in x.name;
    assert forall l <- MovedAll(x.descr, base + x.width) :: IsClean(l);
    if x.inline {
      var text := x.name + ":" + (" " + x.descr[0].text);
      assert x.descr[0] in x.descr && text[|text| - 1] == x.descr[0].text[|x.descr[0].text| - 1];
      assert forall l <- MovedAll(x.descr[1..], base + x.width) :: IsClean(l);
    }
  }

  /** The same down to the characters of the docstring. */
  lemma {:induction false} DocstringReadsBack(heading: Line, xs: seq<Source>, base: nat)
    requires IsHeading(heading) && base > 0
    requires forall x <- xs :: IsSource(x) && forall l <- x.descr :: IsTrimmed(l.text)
    ensures Parsed(CutAll(Raw(Printed(heading, xs, base)))) == Found(Meant(xs), [])
  {
    hide Described, PrintedAll, Cut, Parsed, Spaces, IsSource, Meant;
    var lines := Printed(heading, xs, base);
    PrintedClean(xs, base);
    forall i | 0 <= i < |lines|
      ensures Cut(Raw(lines)[i]) == lines[i]
    {
      assert lines[i] in lines && (i > 0 ==> lines[i] == PrintedAll(xs, base)[i - 1]);
      CutOfRaw(lines[i]);
    }
    assert CutAll(Raw(lines)) == lines;
    PrintedReadsBack(heading, xs, base);
  }
}
