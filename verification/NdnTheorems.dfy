/** NDN text is unambiguous: a reader for it recovers what was rendered. Stacks compose associatively. */
module NdnTheorems {
  import opened Common
  import opened Ndn

  // ---- which fields show where ----

  function Shown(fields: seq<Field>, given: map<string, Value>, csap: bool): seq<Field> {
    if fields == [] then []
    else
      var last := fields[|fields| - 1];
      Shown(fields[..|fields| - 1], given, csap) + if IsShown(last, given, csap) then [last] else []
  }

  /** Each shown field can be formatted, and no two name the same NDN field. */
  ghost predicate Renderable(shown: seq<Field>, given: map<string, Value>) {
    && (forall f <- shown :: f.kwarg in given && Formatted(f.format, given[f.kwarg]).Some?)
    && (forall i, j :: 0 <= i < j < |shown| ==> shown[i].ndn != shown[j].ndn)
  }

  /** The items of the shown fields, in table order. */
  ghost predicate Lists(items: seq<Item>, shown: seq<Field>, given: map<string, Value>) {
    && |items| == |shown|
    && forall i :: 0 <= i < |shown| ==>
         shown[i].kwarg in given && Formatted(shown[i].format, given[shown[i].kwarg]) == Some(items[i].1)
           && items[i].0 == shown[i].ndn
  }

  /** A layer renders if and only if its fields can, and then it lists exactly these. */
  lemma {:induction false} ScanLists(fields: seq<Field>, given: map<string, Value>, csap: bool)
    ensures var (r, shown) := (Scan(fields, given, csap), Shown(fields, given, csap));
      && (r.Ok? <==> Renderable(shown, given))
      && (r.Ok? ==> Lists(r.value.items, shown, given) && r.value.seen == Ndns(shown))
  {
    hide Formatted, Renderable, Lists, Ndns;
    NothingListed(given);
    if fields != [] {
      var rest, last := fields[..|fields| - 1], fields[|fields| - 1];
      ScanLists(rest, given, csap);
      if IsShown(last, given, csap) {
        var shown := Shown(rest, given, csap);
        RenderableMore(shown, last, given);
        var row := Scan(rest, given, csap);
        var v := Formatted(last.format, given[last.kwarg]);
        if row.Ok? && v.Some? { ListsMore(row.value.items, shown, given, last, v.value); }
      } else {
        assert Shown(fields, given, csap) == Shown(rest, given, csap);
      }
    }
  }

  function Ndns(fields: seq<Field>): set<string> {
    set f <- fields :: f.ndn
  }

  lemma {:induction false} NothingListed(given: map<string, Value>)
    ensures Renderable([], given) && Lists([], [], given) && Ndns([]) == {}
  {
  }

  lemma {:induction false} ListsMore(items: seq<Item>, shown: seq<Field>, given: map<string, Value>, f: Field, v: Val)
    requires Lists(items, shown, given) && f.kwarg in given && Formatted(f.format, given[f.kwarg]) == Some(v)
    ensures Lists(items + [(f.ndn, v)], shown + [f], given) && Ndns(shown + [f]) == Ndns(shown) + {f.ndn}
  {
    hide Formatted;
    assert forall g :: g in shown + [f] <==> g in shown || g == f;
  }

  lemma {:induction false} RenderableMore(shown: seq<Field>, f: Field, given: map<string, Value>)
    requires f.kwarg in given
    ensures Renderable(shown + [f], given) <==>
            Renderable(shown, given) && f.ndn !in Ndns(shown) && Formatted(f.format, given[f.kwarg]).Some?
  {
    hide Formatted;
    var more := shown + [f];
    if Renderable(more, given) {
      assert forall g <- shown :: g in more;
      assert forall i, j :: 0 <= i < j < |shown| ==> more[i] == shown[i] && more[j] == shown[j];
      forall g | g in shown
        ensures g.ndn != f.ndn
      {
        var i :| 0 <= i < |shown| && shown[i] == g;
        assert more[i] == g && more[|shown|] == f;
      }
      assert f in more;
    }
  }

  /** Every argument shows exactly once, in the CSAP spec or in the PDU, never in both. */
  lemma {:induction false} EveryFieldOnce(fields: seq<Field>, given: map<string, Value>, k: nat)
    requires forall i, j :: 0 <= i < j < |fields| ==> fields[i].kwarg != fields[j].kwarg
    requires k < |fields| && fields[k].kwarg in given
    ensures 1 ==
      Times(Shown(fields, given, true), fields[k].kwarg) + Times(Shown(fields, given, false), fields[k].kwarg)
    decreases |fields|
  {
    var n := |fields| - 1;
    if k < n {
      EveryFieldOnce(fields[..n], given, k);
    } else {
      NeverBefore(fields[..n], given, true, fields[k].kwarg);
      NeverBefore(fields[..n], given, false, fields[k].kwarg);
    }
    TimesMore(Shown(fields[..n], given, true), fields[n], fields[k].kwarg);
    TimesMore(Shown(fields[..n], given, false), fields[n], fields[k].kwarg);
  }

  function Times(shown: seq<Field>, kwarg: string): nat {
    if shown == [] then 0
    else Times(shown[..|shown| - 1], kwarg) + if shown[|shown| - 1].kwarg == kwarg then 1 else 0
  }

  lemma {:induction false} TimesMore(shown: seq<Field>, f: Field, kwarg: string)
    ensures Times(shown + [f], kwarg) == Times(shown, kwarg) + if f.kwarg == kwarg then 1 else 0
    ensures Times(shown + [], kwarg) == Times(shown, kwarg)
  {
    assert (shown + [f])[..|shown|] == shown && shown + [] == shown;
  }

  lemma {:induction false} NeverBefore(fields: seq<Field>, given: map<string, Value>, csap: bool, kwarg: string)
    requires forall f <- fields :: f.kwarg != kwarg
    ensures Times(Shown(fields, given, csap), kwarg) == 0
  {
    if fields != [] {
      var n := |fields| - 1;
      NeverBefore(fields[..n], given, csap, kwarg);
      TimesMore(Shown(fields[..n], given, csap), fields[n], kwarg);
    }
  }

  // ---- composition ----

  /** Grouping does not matter, for the result and for whether there is one. */
  lemma {:induction false} DivisionAssociates(x: Operand, y: Operand, z: Operand)
    requires !x.Bytes? && !y.Bytes?
    ensures (Divided(x, y).Ok? && Divided(Divided(x, y).value, z).Ok?) <==>
      (Divided(y, z).Ok? && Divided(x, Divided(y, z).value).Ok?)
    ensures Divided(x, y).Ok? && Divided(y, z).Ok? ==>
      Divided(Divided(x, y).value, z) == Divided(x, Divided(y, z).value)
  {
    var layers := (o: Operand) => match o case OneLayer(l) => [l] case WholeStack(s) => s.layers case Bytes(_) => [];
    assert (layers(x) + layers(y)) + layers(z) == layers(x) + (layers(y) + layers(z));
    assert layers(x) + (layers(y) + []) == layers(x) + layers(y);
  }

  // ---- reading numbers, octets and strings ----

  type Read<+T> = Option<(T, string)>

  function DigitOf(c: char): Option<nat> {
    if '0' <= c <= '9' then Some((c - '0') as nat)
    else if 'A' <= c <= 'F' then Some((c - 'A') as nat + 10)
    else None
  }

  predicate IsDigit(c: char) { '0' <= c <= '9' }

  function ReadNat(n: nat, s: string): (nat, string)
    decreases |s|
  {
    if s != "" && IsDigit(s[0]) then ReadNat(10 * n + DigitOf(s[0]).value, s[1..]) else (n, s)
  }

  /** Reading is sure to go on where a text that follows a number starts. */
  predicate Ends(rest: string) { rest != "" && !IsDigit(rest[0]) }

  lemma {:induction false} DigitReads(n: nat)
    requires n < 16
    ensures DigitOf(Digit(n)) == Some(n) && (n < 10 ==> IsDigit(Digit(n)))
  {
  }

  lemma {:induction false} NatReads(n: nat, rest: string)
    ensures ReadNat(0, NatText(n) + rest) == ReadNat(n, rest)
    ensures NatText(n) != "" && IsDigit(NatText(n)[0])
  {
    hide Digit, DigitOf, IsDigit;
    DigitReads(n % 10);
    if n < 10 {
      assert (NatText(n) + rest)[1..] == rest;
    } else {
      var tail := [Digit(n % 10)] + rest;
      assert NatText(n) + rest == NatText(n / 10) + tail;
      NatReads(n / 10, tail);
      assert tail[1..] == rest;
    }
  }

  function Minus(n: int): int { -n }

  function ReadInt(s: string): Read<int> {
    if s == "" then None
    else if IsDigit(s[0]) then Some(ReadNat(0, s))
    else if s[0] == '-' && |s| > 1 && IsDigit(s[1]) then Some((Minus(ReadNat(0, s[1..]).0), ReadNat(0, s[1..]).1))
    else None
  }

  lemma {:induction false} IntReads(n: int, rest: string)
    requires Ends(rest)
    ensures ReadInt(IntText(n) + rest) == Some((n, rest))
    ensures IntText(n) != "" && (IsDigit(IntText(n)[0]) || IntText(n)[0] == '-')
  {
    hide NatText;
    var m: nat := if n < 0 then -n else n;
    NatReads(m, rest);
    if n < 0 {
      assert (IntText(n) + rest)[1..] == NatText(m) + rest;
    }
  }

  function ReadHex(s: string): Read<seq<byte>>
    decreases |s|
  {
    if s == "" then None
    else if s[0] == '\'' then Some(([], s[1..]))
    else if |s| > 1 && DigitOf(s[0]).Some? && DigitOf(s[1]).Some? then
      match ReadHex(s[2..])
      case None => None
      case Some((b, rest)) => Some(([16 * DigitOf(s[0]).value + DigitOf(s[1]).value] + b, rest))
    else None
  }

  lemma {:induction false} HexReads(b: seq<byte>, rest: string)
    ensures ReadHex(HexText(b) + "'" + rest) == Some((b, rest))
  {
    hide Digit, DigitOf;
    var s := HexText(b) + "'" + rest;
    if b == [] {
      assert s[1..] == rest;
    } else {
      DigitReads(b[0] / 16);
      DigitReads(b[0] % 16);
      assert DigitOf('\'').None? by { NoDigit(); }
      HexReads(b[1..], rest);
      assert s[2..] == HexText(b[1..]) + "'" + rest;
      assert [b[0]] + b[1..] == b;
    }
  }

  lemma {:induction false} NoDigit()
    ensures DigitOf('\'').None?
  {
  }

  /** A character string up to its closing quote; a backslash takes the next character as it is. */
  function ReadStr(s: string): Read<string>
    decreases |s|
  {
    if s == "" then None
    else if s[0] == '"' then Some(("", s[1..]))
    else if s[0] == '\\' then
      if |s| == 1 then None
      else match ReadStr(s[2..])
        case None => None
        case Some((t, rest)) => Some(([s[1]] + t, rest))
    else match ReadStr(s[1..])
      case None => None
      case Some((t, rest)) => Some(([s[0]] + t, rest))
  }

  /** Escaping character by character: the two replacements, in their order, do not disturb each other. */
  function EscapedOne(c: char): string {
    if c == '\\' then "\\\\" else if c == '"' then "\\\"" else [c]
  }

  lemma {:induction false} EscapedFirst(s: string)
    requires s != ""
    ensures Escaped(s) == EscapedOne(s[0]) + Escaped(s[1..])
  {
    var tail := Replaced(s[1..], '\\', "\\\\");
    if s[0] == '\\' {
      var once := "\\\\" + tail;
      assert once[1..] == "\\" + tail && once[1..][1..] == tail;
      assert Replaced("\\" + tail, '"', "\\\"") == "\\" + Replaced(tail, '"', "\\\"");
    } else {
      assert ([s[0]] + tail)[1..] == tail;
    }
  }

  lemma {:induction false} StrReads(s: string, rest: string)
    ensures ReadStr(Escaped(s) + "\"" + rest) == Some((s, rest))
  {
    hide Escaped;
    var text := Escaped(s) + "\"" + rest;
    if s == "" {
      assert Escaped("") == "" by { EscapedNothing(); }
      assert text[1..] == rest;
    } else {
      EscapedFirst(s);
      StrReads(s[1..], rest);
      var tail := Escaped(s[1..]) + "\"" + rest;
      assert text == EscapedOne(s[0]) + tail;
      assert [s[0]] + s[1..] == s;
      if s[0] == '\\' || s[0] == '"' {
        assert text[2..] == tail;
      } else {
        assert text[1..] == tail;
      }
    }
  }

  lemma {:induction false} EscapedNothing()
    ensures Escaped("") == ""
  {
  }

  // ---- reading items, layers and whole texts ----

  function After(p: string, s: string): Option<string> {
    if p <= s then Some(s[|p|..]) else None
  }

  lemma {:induction false} AfterIs(p: string, rest: string)
    ensures After(p, p + rest) == Some(rest)
  {
  }

  predicate IsNameChar(c: char) { 'a' <= c <= 'z' || '0' <= c <= '9' || c == '-' }

  /** A name of the NDN tables; it starts with a letter and is none of the words that mark a value. */
  predicate IsName(s: string) {
    s != "" && 'a' <= s[0] <= 'z' && forall c <- s :: IsNameChar(c)
  }

  function ReadName(s: string): (string, string) {
    if s != "" && IsNameChar(s[0]) then var (name, rest) := ReadName(s[1..]); ([s[0]] + name, rest) else ("", s)
  }

  lemma {:induction false} NameReads(name: string, rest: string)
    requires (forall c <- name :: IsNameChar(c)) && (rest == "" || !IsNameChar(rest[0]))
    ensures ReadName(name + rest) == (name, rest)
  {
    if name == "" {
      assert name + rest == rest;
    } else {
      assert name[0] in name && forall c <- name[1..] :: c in name;
      assert (name + rest)[1..] == name[1..] + rest;
      NameReads(name[1..], rest);
      assert [name[0]] + name[1..] == name;
    }
  }

  /** The values that the formatters make. */
  predicate IsVal(v: Val) {
    v.Choice? ==> IsName(v.name) && v.name != "plain" && v.name != "file-descr"
  }

  function As<T>(r: Read<T>, f: T -> Val, close: string): Read<Val> {
    match r
    case None => None
    case Some((x, rest)) => match After(close, rest) case None => None case Some(rest') => Some((f(x), rest'))
  }

  function ReadVal(s: string): Read<Val> {
    if s == "" then None
    else if IsDigit(s[0]) || s[0] == '-' then As(ReadInt(s), n => Bare(n), "")
    else
      var (name, rest) := ReadName(s);
      if name == "plain" then
        if After(":\"", rest).Some? then As(ReadStr(After(":\"", rest).value), t => PlainStr(t), "")
        else if After(":'", rest).Some? then As(ReadHex(After(":'", rest).value), b => PlainHex(b), "H")
        else if After(":", rest).Some? then As(ReadInt(After(":", rest).value), n => PlainInt(n), "")
        else None
      else if name == "file-descr" then
        if After(":", rest).Some? then As(ReadInt(After(":", rest).value), n => Fd(n), "") else None
      else match After(":NULL", rest)
        case None => None
        case Some(rest') => Some((Choice(name), rest'))
  }

  lemma {:induction false} ValReads(v: Val, rest: string)
    requires IsVal(v) && Ends(rest)
    ensures ReadVal(ValText(v) + rest) == Some((v, rest))
  {
    hide ReadVal, ValText;
    match v
    case Bare(n) => BareReads(n, rest);
    case PlainInt(n) => MarkedIntReads("plain", n, rest);
    case Fd(n) => MarkedIntReads("file-descr", n, rest);
    case PlainStr(s) => PlainStrReads(s, rest);
    case PlainHex(b) => PlainHexReads(b, rest);
    case Choice(name) => ChoiceReads(name, rest);
  }

  lemma {:induction false} BareReads(n: int, rest: string)
    requires Ends(rest)
    ensures ReadVal(ValText(Bare(n)) + rest) == Some((Bare(n), rest))
  {
    hide ReadInt, IntText;
    IntReads(n, rest);
    AfterIs("", rest);
    assert "" + rest == rest;
  }

  lemma {:induction false} MarkedIntReads(mark: string, n: int, rest: string)
    requires Ends(rest) && mark in {"plain", "file-descr"}
    ensures var v := if mark == "plain" then PlainInt(n) else Fd(n); ReadVal(ValText(v) + rest) == Some((v, rest))
  {
    hide ReadInt, IntText, ReadName, After;
    var v := if mark == "plain" then PlainInt(n) else Fd(n);
    var colon := ":" + IntText(n) + rest;
    IntReads(n, rest);
    assert mark + ":" == if mark == "plain" then "plain:" else "file-descr:";
    assert ValText(v) + rest == mark + colon;
    Marked(mark, colon, ValText(v) + rest);
    ColonReads(":", IntText(n), rest);
    AfterIs("", rest);
    assert "" + rest == rest;
  }

  lemma {:induction false} PlainStrReads(s: string, rest: string)
    ensures ReadVal(ValText(PlainStr(s)) + rest) == Some((PlainStr(s), rest))
  {
    hide ReadStr, Escaped, ReadName, After;
    var v := PlainStr(s);
    var colon := ":\"" + (Escaped(s) + "\"") + rest;
    assert "plain" + ":\"" == "plain:\"";
    assert ValText(v) + rest == "plain" + colon;
    Marked("plain", colon, ValText(v) + rest);
    ColonReads(":\"", Escaped(s) + "\"", rest);
    StrReads(s, rest);
    AfterIs("", rest);
    assert "" + rest == rest;
  }

  lemma {:induction false} PlainHexReads(b: seq<byte>, rest: string)
    ensures ReadVal(ValText(PlainHex(b)) + rest) == Some((PlainHex(b), rest))
  {
    hide ReadHex, HexText, ReadName, After;
    var v := PlainHex(b);
    var colon := ":'" + (HexText(b) + "'H") + rest;
    assert "plain" + ":'" == "plain:'";
    assert ValText(v) + rest == "plain" + colon;
    Marked("plain", colon, ValText(v) + rest);
    ColonReads(":'", HexText(b) + "'H", rest);
    HexReads(b, "H" + rest);
    assert HexText(b) + "'H" + rest == HexText(b) + "'" + ("H" + rest);
    AfterIs("H", rest);
  }

  lemma {:induction false} Marked(name: string, rest: string, text: string)
    requires name in {"plain", "file-descr"} && text == name + rest && rest != "" && rest[0] == ':'
    ensures ReadName(text) == (name, rest) && !IsDigit(text[0]) && text[0] != '-'
  {
    NameReads(name, rest);
  }

  /** What follows the word that marks a value, and what it is not. */
  lemma {:induction false} ColonReads(colon: string, body: string, rest: string)
    requires colon in {":", ":\"", ":'"}
    requires colon == ":" ==> body != "" && body[0] != '"' && body[0] != '\''
    ensures var text := colon + body + rest;
      && After(colon, text) == Some(body + rest)
      && (colon != ":\"" ==> After(":\"", text).None?)
      && (colon == ":" ==> After(":'", text).None?)
  {
    AfterIs(colon, body + rest);
    var text := colon + body + rest;
    assert text == colon + (body + rest);
    assert text[1] == if colon == ":" then body[0] else colon[1];
  }

  lemma {:induction false} ChoiceReads(name: string, rest: string)
    requires IsName(name) && name != "plain" && name != "file-descr"
    ensures ReadVal(ValText(Choice(name)) + rest) == Some((Choice(name), rest))
  {
    var text := name + ":NULL" + rest;
    assert text == name + (":NULL" + rest);
    NameReads(name, ":NULL" + rest);
    AfterIs(":NULL", rest);
    assert text[0] == name[0];
  }

  function ReadItem(s: string): Read<Item> {
    var (name, rest) := ReadName(s);
    match After(" ", rest)
    case None => None
    case Some(rest) => match ReadVal(rest) case None => None case Some((v, rest)) => Some(((name, v), rest))
  }

  /** Items separated by commas, up to the closing brace. */
  function ReadItems(s: string): Read<seq<Item>>
    decreases |s|
  {
    match ReadItem(s)
    case None => None
    case Some((i, rest)) =>
      match After(", ", rest)
      case None => (match After(" }", rest) case None => None case Some(rest) => Some(([i], rest)))
      case Some(more) =>
        if |more| >= |s| then None
        else match ReadItems(more) case None => None case Some((items, rest)) => Some(([i] + items, rest))
  }

  function ReadBody(s: string): Read<seq<Item>> {
    match After("{}", s)
    case Some(rest) => Some(([], rest))
    case None => match After("{ ", s) case None => None case Some(rest) => ReadItems(rest)
  }

  function ReadBlock(s: string): Read<Block> {
    var (name, rest) := ReadName(s);
    match After(":", rest)
    case None => None
    case Some(rest) => match ReadBody(rest) case None => None case Some((items, rest)) => Some(((name, items), rest))
  }

  function ReadBlocks(s: string): Read<seq<Block>>
    decreases |s|
  {
    match ReadBlock(s)
    case None => None
    case Some((b, rest)) =>
      match After(", ", rest)
      case None => (match After(" }", rest) case None => None case Some(rest) => Some(([b], rest)))
      case Some(more) =>
        if |more| >= |s| then None
        else match ReadBlocks(more) case None => None case Some((blocks, rest)) => Some(([b] + blocks, rest))
  }

  function ReadPile(s: string): Read<seq<Block>> {
    match After(" }", s)
    case Some(rest) => Some(([], rest))
    case None => ReadBlocks(s)
  }

  /** The end of a template. */
  function ReadEnd(s: string): Option<Option<seq<byte>>> {
    if s == " }" then Some(None)
    else match After(", payload bytes:'", s)
      case None => None
      case Some(rest) => match ReadHex(rest) case None => None
        case Some((b, rest)) => if rest == "H }" then Some(Some(b)) else None
  }

  function ReadTemplate(s: string): Option<(seq<Block>, Option<seq<byte>>)> {
    match After("{ pdus { ", s)
    case None => None
    case Some(rest) =>
      match ReadPile(rest)
      case None => None
      case Some((blocks, rest)) => match ReadEnd(rest) case None => None case Some(payload) => Some((blocks, payload))
  }

  function ReadWhole(open: string, close: string, s: string): Option<seq<Block>> {
    match After(open, s)
    case None => None
    case Some(rest) => match ReadPile(rest) case None => None
      case Some((blocks, rest)) => if rest == close then Some(blocks) else None
  }

  predicate IsItem(i: Item) { IsName(i.0) && IsVal(i.1) }

  predicate IsBlock(b: Block) { IsName(b.0) && forall i <- b.1 :: IsItem(i) }

  lemma {:induction false} ItemReads(i: Item, rest: string)
    requires IsItem(i) && Ends(rest)
    ensures ReadItem(ItemText(i) + rest) == Some((i, rest)) && ItemText(i) != ""
  {
    hide ReadVal, ValText, IsVal, ReadName;
    var tail := " " + (ValText(i.1) + rest);
    assert ItemText(i) + rest == i.0 + tail;
    NameReads(i.0, tail);
    AfterIs(" ", ValText(i.1) + rest);
    ValReads(i.1, rest);
  }

  lemma {:induction false} Separators(rest: string)
    ensures After(", ", ", " + rest) == Some(rest) && After(", ", " }" + rest).None?
      && After(" }", " }" + rest) == Some(rest)
    ensures Ends(", " + rest) && Ends(" }" + rest)
  {
    AfterIs(", ", rest);
    AfterIs(" }", rest);
    assert (" }" + rest)[0] == ' ' && (", " + rest)[0] == ',';
  }

  lemma {:induction false} ItemsRead(items: seq<Item>, rest: string)
    requires items != [] && forall i <- items :: IsItem(i)
    ensures ReadItems(Join(ItemTexts(items)) + " }" + rest) == Some((items, rest))
    decreases |items|
  {
    hide ReadItem, ItemText, IsItem, After, Ends;
    var text := Join(ItemTexts(items)) + " }" + rest;
    var i := items[0];
    assert i in items;
    if |items| == 1 {
      Separators(rest);
      assert text == ItemText(i) + (" }" + rest);
      ItemReads(i, " }" + rest);
      assert [i] == items;
    } else {
      var more := Join(ItemTexts(items[1..])) + " }" + rest;
      Separators(more);
      assert ItemTexts(items)[1..] == ItemTexts(items[1..]);
      assert text == ItemText(i) + (", " + more);
      ItemReads(i, ", " + more);
      assert forall j <- items[1..] :: j in items;
      ItemsRead(items[1..], rest);
      assert [i] + items[1..] == items;
    }
  }

  lemma {:induction false} BodyReads(items: seq<Item>, rest: string)
    requires forall i <- items :: IsItem(i)
    ensures ReadBody(BodyText(items) + rest) == Some((items, rest))
  {
    hide ReadItems, Join, ItemTexts, IsItem;
    var text := BodyText(items) + rest;
    if items == [] {
      AfterIs("{}", rest);
    } else {
      var tail := Join(ItemTexts(items)) + " }" + rest;
      assert text == "{ " + tail && text[1] == ' ';
      AfterIs("{ ", tail);
      ItemsRead(items, rest);
    }
  }

  lemma {:induction false} BlockReads(b: Block, rest: string)
    requires IsBlock(b)
    ensures ReadBlock(BlockText(b) + rest) == Some((b, rest)) && BlockText(b) != "" && BlockText(b)[0] != ' '
  {
    hide ReadBody, BodyText, ReadName, IsItem;
    var tail := ":" + (BodyText(b.1) + rest);
    assert BlockText(b) + rest == b.0 + tail;
    NameReads(b.0, tail);
    AfterIs(":", BodyText(b.1) + rest);
    BodyReads(b.1, rest);
    assert BlockText(b)[0] == b.0[0];
  }

  lemma {:induction false} BlocksRead(blocks: seq<Block>, rest: string)
    requires blocks != [] && forall b <- blocks :: IsBlock(b)
    ensures ReadBlocks(Join(BlockTexts(blocks)) + " }" + rest) == Some((blocks, rest))
    decreases |blocks|
  {
    hide ReadBlock, BlockText, IsBlock, After, Ends;
    var text := Join(BlockTexts(blocks)) + " }" + rest;
    var b := blocks[0];
    assert b in blocks;
    if |blocks| == 1 {
      Separators(rest);
      assert text == BlockText(b) + (" }" + rest);
      BlockReads(b, " }" + rest);
      assert [b] == blocks;
    } else {
      var more := Join(BlockTexts(blocks[1..])) + " }" + rest;
      Separators(more);
      assert BlockTexts(blocks)[1..] == BlockTexts(blocks[1..]);
      assert text == BlockText(b) + (", " + more);
      BlockReads(b, ", " + more);
      assert forall c <- blocks[1..] :: c in blocks;
      BlocksRead(blocks[1..], rest);
      assert [b] + blocks[1..] == blocks;
    }
  }

  lemma {:induction false} PileReads(blocks: seq<Block>, rest: string)
    requires forall b <- blocks :: IsBlock(b)
    ensures ReadPile(Join(BlockTexts(blocks)) + " }" + rest) == Some((blocks, rest))
  {
    hide ReadBlocks, BlockTexts, BlockText, IsBlock;
    assert Join(BlockTexts([])) == "" by { JoinNothing(); }
    var text := Join(BlockTexts(blocks)) + " }" + rest;
    if blocks == [] {
      assert text == " }" + rest;
      AfterIs(" }", rest);
    } else {
      FirstOfPile(blocks, rest);
      BlocksRead(blocks, rest);
    }
  }

  lemma {:induction false} JoinNothing()
    ensures Join(BlockTexts([])) == ""
  {
  }

  lemma {:induction false} FirstOfPile(blocks: seq<Block>, rest: string)
    requires blocks != [] && forall b <- blocks :: IsBlock(b)
    ensures var text := Join(BlockTexts(blocks)) + " }" + rest; text != "" && text[0] != ' '
  {
    hide BlockText, IsBlock;
    assert blocks[0] in blocks;
    BlockReads(blocks[0], "");
    assert BlockTexts(blocks)[0] == BlockText(blocks[0]);
    assert Join(BlockTexts(blocks))[0] == BlockText(blocks[0])[0];
  }

  /** From a template its layers, their values in table order and the payload are read back. */
  lemma {:induction false} TemplateReads(blocks: seq<Block>, payload: Option<seq<byte>>)
    requires forall b <- blocks :: IsBlock(b)
    ensures ReadTemplate(TemplateText(blocks, payload)) == Some((blocks, payload))
  {
    hide ReadPile, BlockTexts, IsBlock, Join, ReadEnd, EndText, After;
    var pile, end := Join(BlockTexts(blocks)) + " }", EndText(payload);
    EndReads(payload);
    PileReads(blocks, end);
    AfterIs("{ pdus { ", pile + end);
    assert TemplateText(blocks, payload) == "{ pdus { " + (pile + end);
  }

  lemma {:induction false} EndReads(payload: Option<seq<byte>>)
    ensures ReadEnd(EndText(payload)) == Some(payload)
  {
    hide ReadHex, HexText, After;
    if payload.Some? {
      var hex := HexText(payload.value);
      AfterIs(", payload bytes:'", hex + "'H }");
      HexReads(payload.value, "H }");
      assert "'" + "H }" == "'H }" && hex + "'" + "H }" == hex + "'H }";
      assert EndText(payload) == ", payload bytes:'" + (hex + "'H }");
    }
  }

  lemma {:induction false} WholeReads(open: string, close: string, blocks: seq<Block>)
    requires forall b <- blocks :: IsBlock(b)
    ensures ReadWhole(open, close, open + (Join(BlockTexts(blocks)) + " }" + close)) == Some(blocks)
  {
    hide ReadPile, BlockTexts, IsBlock, Join;
    PileReads(blocks, close);
    AfterIs(open, Join(BlockTexts(blocks)) + " }" + close);
  }

  /** And from a pattern, and from a CSAP spec. */
  lemma {:induction false} PatternAndSpecRead(blocks: seq<Block>)
    requires forall b <- blocks :: IsBlock(b)
    ensures ReadWhole("{ { pdus { ", " } }", PatternText(blocks)) == Some(blocks)
    ensures ReadWhole("{ layers { ", " }", SpecText(blocks)) == Some(blocks)
  {
    hide ReadWhole, BlockTexts, IsBlock, Join;
    var pile := Join(BlockTexts(blocks)) + " }";
    WholeReads("{ { pdus { ", " } }", blocks);
    WholeReads("{ layers { ", " }", blocks);
    assert PatternText(blocks) == "{ { pdus { " + (pile + " } }");
    assert SpecText(blocks) == "{ layers { " + (pile + " }");
  }

  // ---- the layers of the DSL ----

  predicate IsTable(p: Protocol) {
    IsName(p.name) && forall f <- p.fields :: IsName(f.ndn) && (f.format.SocketType? ==> IsVal(Choice(f.format.choice)))
  }

  lemma {:induction false} LayerTables()
    ensures IsTable(ETHER) && IsTable(IP4) && IsTable(UDP) && IsTable(TCP) && IsTable(ICMP4) && IsTable(SOCKET)
  {
    hide IsName, IsTable;
    LayerNames();
    DeviceNames();
    AddressNames();
    HeaderNames();
    PortNames();
    SmallNames();
    ChoiceNames();
    TableOf(ETHER);
    TableOf(IP4);
    TableOf(UDP);
    TableOf(TCP);
    TableOf(ICMP4);
    TableOf(SOCKET);
  }

  lemma {:induction false} TableOf(p: Protocol)
    requires IsName(p.name) && forall i :: 0 <= i < |p.fields| ==>
      IsName(p.fields[i].ndn) && (p.fields[i].format.SocketType? ==> IsVal(Choice(p.fields[i].format.choice)))
    ensures IsTable(p)
  {
    hide IsName, IsVal;
  }

  lemma {:induction false} LayerNames()
    ensures IsName("eth") && IsName("ip4") && IsName("udp") && IsName("tcp") && IsName("icmp4")
  {
  }

  lemma {:induction false} DeviceNames()
    ensures IsName("socket") && IsName("device-id") && IsName("receive-mode")
  {
  }

  lemma {:induction false} AddressNames()
    ensures IsName("local-addr") && IsName("remote-addr") && IsName("dst-addr") && IsName("src-addr")
  {
  }

  lemma {:induction false} HeaderNames()
    ensures IsName("ether-type") && IsName("time-to-live") && IsName("protocol")
  {
  }

  lemma {:induction false} PortNames()
    ensures IsName("local-port") && IsName("remote-port") && IsName("src-port") && IsName("dst-port")
  {
  }

  lemma {:induction false} SmallNames()
    ensures IsName("seqn") && IsName("ackn") && IsName("flags") && IsName("win-size") && IsName("type")
      && IsName("code")
  {
  }

  lemma {:induction false} ChoiceNames()
    ensures IsName("tcp-server") && IsName("tcp-client")
  {
  }

  lemma {:induction false} ItemsAreItems(fields: seq<Field>, given: map<string, Value>, csap: bool)
    requires forall f <- fields :: IsName(f.ndn) && (f.format.SocketType? ==> IsVal(Choice(f.format.choice)))
    requires Scan(fields, given, csap).Ok?
    ensures forall i <- Scan(fields, given, csap).value.items :: IsItem(i)
  {
    hide IsName;
    if fields != [] {
      ItemsAreItems(fields[..|fields| - 1], given, csap);
    }
  }

  lemma {:induction false} BlocksAreBlocks(layers: seq<Layer>, csap: bool)
    requires (forall l <- layers :: IsTable(l.protocol)) && Blocks(layers, csap).Ok?
    ensures forall b <- Blocks(layers, csap).value :: IsBlock(b)
  {
    hide IsName, IsItem, Scan;
    if layers != [] {
      assert layers[0] in layers && forall l <- layers[1..] :: l in layers;
      ItemsAreItems(layers[0].protocol.fields, layers[0].given, csap);
      BlocksAreBlocks(layers[1..], csap);
    }
  }

  /** Whatever stack is rendered: its template, its pattern and its CSAP spec tell its layers and their values. */
  lemma {:induction false} RenderedStackReadsBack(s: Stack)
    requires forall l <- s.layers :: IsTable(l.protocol)
    ensures Blocks(s.layers, false).Ok? ==>
      var blocks := Blocks(s.layers, false).value;
      && ReadTemplate(TemplateText(blocks, s.payload)) == Some((blocks, s.payload))
      && ReadWhole("{ { pdus { ", " } }", PatternText(blocks)) == Some(blocks)
    ensures Blocks(s.layers, true).Ok? ==>
      ReadWhole("{ layers { ", " }", SpecText(Blocks(s.layers, true).value)) == Some(Blocks(s.layers, true).value)
  {
    hide IsTable, Blocks, IsBlock, ReadWhole, ReadTemplate, TemplateText, PatternText, SpecText;
    if Blocks(s.layers, false).Ok? {
      BlocksAreBlocks(s.layers, false);
      TemplateReads(Blocks(s.layers, false).value, s.payload);
      PatternAndSpecRead(Blocks(s.layers, false).value);
    }
    if Blocks(s.layers, true).Ok? {
      BlocksAreBlocks(s.layers, true);
      PatternAndSpecRead(Blocks(s.layers, true).value);
    }
  }

  /** What a field shows tells its argument. */
  lemma {:induction false} FormattedTells(f: Format, v: Value, w: Value)
    requires Formatted(f, v).Some? && Formatted(f, v) == Formatted(f, w)
    ensures v == w
  {
  }

  // ---- the text tells the arguments ----------------------------------------------------------

  const PROTOCOLS: seq<Protocol> := [ETHER, IP4, UDP, TCP, ICMP4, SOCKET]

  /** No two fields show the same: they have different NDN fields or different values. */
  predicate Distinguished(fields: seq<Field>, csap: bool) {
    forall i, j :: 0 <= i < j < |fields| && fields[i].csapOnly == csap && fields[j].csapOnly == csap ==>
      fields[i].ndn != fields[j].ndn || Apart(fields[i].format, fields[j].format)
  }

  /** Formats of the socket layer's type that never give the same value. */
  predicate Apart(f: Format, g: Format) {
    match (f, g)
    case (SocketType(a), SocketType(b)) => a != b
    case (SocketType(_), SocketFd) => true
    case (SocketFd, SocketType(_)) => true
    case _ => false
  }

  lemma {:induction false} ProtocolsAreTables(i: nat)
    requires i < |PROTOCOLS|
    ensures IsTable(PROTOCOLS[i]) && forall csap :: Distinguished(PROTOCOLS[i].fields, csap)
  {
    hide IsTable, Distinguished;
    LayerTables();
    HeadersAreDistinguished();
    PortsAreDistinguished();
    SocketIsDistinguished();
  }

  lemma {:induction false} HeadersAreDistinguished()
    ensures forall csap :: Distinguished(ETHER.fields, csap) && Distinguished(IP4.fields, csap)
  {
  }

  lemma {:induction false} PortsAreDistinguished()
    ensures forall csap ::
      Distinguished(UDP.fields, csap) && Distinguished(TCP.fields, csap) && Distinguished(ICMP4.fields, csap)
  {
  }

  lemma {:induction false} SocketIsDistinguished()
    ensures forall csap :: Distinguished(SOCKET.fields, csap)
  {
  }

  lemma {:induction false} NamesTellProtocols(i: nat, j: nat)
    requires i < |PROTOCOLS| && j < |PROTOCOLS| && PROTOCOLS[i].name == PROTOCOLS[j].name
    ensures i == j
  {
    var names := ["eth", "ip4", "udp", "tcp", "icmp4", "socket"];
    assert forall k :: 0 <= k < 6 ==> PROTOCOLS[k].name == names[k];
    assert names[0][0] == 'e' && names[1][1] == 'p' && names[2][0] == 'u' && names[3][0] == 't' && names[4][1] == 'c'
      && names[5][0] == 's';
    assert names[4][0] == 'i' && names[1][0] == 'i';
  }

  /** The same arguments for every field that the PDU, or the CSAP spec, shows. */
  ghost predicate SameArguments(fields: seq<Field>, g: map<string, Value>, h: map<string, Value>, csap: bool) {
    forall f <- fields :: f.csapOnly == csap ==>
      (f.kwarg in g <==> f.kwarg in h) && (f.kwarg in g ==> g[f.kwarg] == h[f.kwarg])
  }

  lemma {:induction false} ShownAre(fields: seq<Field>, given: map<string, Value>, csap: bool)
    ensures forall f :: f in Shown(fields, given, csap) <==> f in fields && IsShown(f, given, csap)
  {
    if fields != [] {
      var rest, last := fields[..|fields| - 1], fields[|fields| - 1];
      ShownAre(rest, given, csap);
      assert forall f :: f in fields <==> f in rest || f == last;
    }
  }

  /** A shown field of one layer is shown, for the same argument, by another layer with the same items. */
  lemma {:induction false} ItemTellsArgument(fields: seq<Field>, g: map<string, Value>, h: map<string, Value>,
                                             items: seq<Item>, f: Field, csap: bool)
    requires Distinguished(fields, csap) && f in fields && f.csapOnly == csap && f.kwarg in g
    requires Lists(items, Shown(fields, g, csap), g) && Lists(items, Shown(fields, h, csap), h)
    ensures f.kwarg in h && g[f.kwarg] == h[f.kwarg]
  {
    hide Formatted, Distinguished;
    var a, b := Shown(fields, g, csap), Shown(fields, h, csap);
    ShownAre(fields, g, csap);
    ShownAre(fields, h, csap);
    var k :| 0 <= k < |a| && a[k] == f;
    assert b[k] in b && b[k].ndn == f.ndn;
    SameField(fields, f, b[k], g[f.kwarg], h[b[k].kwarg], csap);
    FormattedTells(f.format, g[f.kwarg], h[f.kwarg]);
  }

  lemma {:induction false} SameField(fields: seq<Field>, f: Field, g: Field, v: Value, w: Value, csap: bool)
    requires Distinguished(fields, csap) && f in fields && g in fields && f.csapOnly == csap && g.csapOnly == csap
    requires f.ndn == g.ndn && Formatted(f.format, v).Some? && Formatted(f.format, v) == Formatted(g.format, w)
    ensures f == g
  {
    hide Formatted;
    var i :| 0 <= i < |fields| && fields[i] == f;
    var j :| 0 <= j < |fields| && fields[j] == g;
    NotApart(f.format, g.format, v, w);
    NotApart(g.format, f.format, w, v);
  }

  lemma {:induction false} NotApart(f: Format, g: Format, v: Value, w: Value)
    requires Formatted(f, v).Some? && Formatted(f, v) == Formatted(g, w)
    ensures !Apart(f, g)
  {
  }

  lemma {:induction false} ItemsTellArguments(fields: seq<Field>, g: map<string, Value>, h: map<string, Value>,
                                              csap: bool)
    requires Distinguished(fields, csap) && Scan(fields, g, csap).Ok? && Scan(fields, h, csap).Ok?
    requires Scan(fields, g, csap).value.items == Scan(fields, h, csap).value.items
    ensures SameArguments(fields, g, h, csap)
  {
    hide Distinguished, Lists, Scan;
    ScanLists(fields, g, csap);
    ScanLists(fields, h, csap);
    var items := Scan(fields, g, csap).value.items;
    forall f | f in fields && f.csapOnly == csap
      ensures (f.kwarg in g <==> f.kwarg in h) && (f.kwarg in g ==> g[f.kwarg] == h[f.kwarg])
    {
      if f.kwarg in g { ItemTellsArgument(fields, g, h, items, f, csap); }
      if f.kwarg in h { ItemTellsArgument(fields, h, g, items, f, csap); }
    }
  }

  /** The same layers, and the same arguments for what PDU or CSAP spec show of each. */
  ghost predicate SameLayers(a: seq<Layer>, b: seq<Layer>, csap: bool) {
    && |a| == |b|
    && forall i :: 0 <= i < |a| ==>
         a[i].protocol == b[i].protocol && SameArguments(a[i].protocol.fields, a[i].given, b[i].given, csap)
  }

  /** Layers of the DSL that render to the same blocks have the same protocols and arguments. */
  lemma {:induction false} BlocksTellLayers(a: seq<Layer>, b: seq<Layer>, csap: bool)
    requires (forall l <- a :: l.protocol in PROTOCOLS) && (forall l <- b :: l.protocol in PROTOCOLS)
    requires Blocks(a, csap).Ok? && Blocks(a, csap) == Blocks(b, csap)
    ensures SameLayers(a, b, csap)
    decreases |a|
  {
    hide Scan, SameArguments, Distinguished, IsTable;
    BlocksCount(a, csap);
    BlocksCount(b, csap);
    if a != [] {
      var x, y := Blocks(a, csap).value, Blocks(b, csap).value;
      assert a[0] in a && b[0] in b;
      assert x[0] == (a[0].protocol.name, ItemsOf(a[0], csap).value) && x[1..] == Blocks(a[1..], csap).value;
      assert y[0] == (b[0].protocol.name, ItemsOf(b[0], csap).value) && y[1..] == Blocks(b[1..], csap).value;
      var i: nat :| i < |PROTOCOLS| && PROTOCOLS[i] == a[0].protocol;
      var j: nat :| j < |PROTOCOLS| && PROTOCOLS[j] == b[0].protocol;
      NamesTellProtocols(i, j);
      ProtocolsAreTables(i);
      ItemsTellArguments(a[0].protocol.fields, a[0].given, b[0].given, csap);
      assert (forall l <- a[1..] :: l in a) && (forall l <- b[1..] :: l in b);
      BlocksTellLayers(a[1..], b[1..], csap);
      forall k | 0 < k < |a|
        ensures a[k].protocol == b[k].protocol && SameArguments(a[k].protocol.fields, a[k].given, b[k].given, csap)
      {
        assert a[k] == a[1..][k - 1] && b[k] == b[1..][k - 1];
      }
    }
  }

  lemma {:induction false} BlocksCount(layers: seq<Layer>, csap: bool)
    requires Blocks(layers, csap).Ok?
    ensures |Blocks(layers, csap).value| == |layers|
  {
    hide Scan;
    if layers != [] {
      BlocksCount(layers[1..], csap);
    }
  }

  /** Two stacks with the same template have the same layers, with the same arguments in every PDU, and the same
      payload. */
  lemma {:induction false} TemplateTellsStack(s: Stack, t: Stack)
    requires (forall l <- s.layers :: l.protocol in PROTOCOLS) && (forall l <- t.layers :: l.protocol in PROTOCOLS)
    requires Blocks(s.layers, false).Ok? && Blocks(t.layers, false).Ok?
    requires TemplateText(Blocks(s.layers, false).value, s.payload)
      == TemplateText(Blocks(t.layers, false).value, t.payload)
    ensures s.payload == t.payload && SameLayers(s.layers, t.layers, false)
  {
    hide Blocks, SameLayers, TemplateText, IsTable, ReadTemplate, ReadWhole, PatternText, SpecText;
    TablesOf(s.layers);
    TablesOf(t.layers);
    RenderedStackReadsBack(s);
    RenderedStackReadsBack(t);
    BlocksTellLayers(s.layers, t.layers, false);
  }

  /** Two stacks with the same CSAP spec have the same layers, with the same arguments in the spec of each; which kind
      of socket was asked for is told by the value of its type. */
  lemma {:induction false} SpecTellsStack(s: Stack, t: Stack)
    requires (forall l <- s.layers :: l.protocol in PROTOCOLS) && (forall l <- t.layers :: l.protocol in PROTOCOLS)
    requires Blocks(s.layers, true).Ok? && Blocks(t.layers, true).Ok?
    requires SpecText(Blocks(s.layers, true).value) == SpecText(Blocks(t.layers, true).value)
    ensures SameLayers(s.layers, t.layers, true)
  {
    hide Blocks, SameLayers, TemplateText, IsTable, ReadTemplate, ReadWhole, PatternText, SpecText;
    TablesOf(s.layers);
    TablesOf(t.layers);
    RenderedStackReadsBack(s);
    RenderedStackReadsBack(t);
    BlocksTellLayers(s.layers, t.layers, true);
  }

  lemma {:induction false} TablesOf(layers: seq<Layer>)
    requires forall l <- layers :: l.protocol in PROTOCOLS
    ensures forall l <- layers :: IsTable(l.protocol)
  {
    hide IsTable;
    forall l | l in layers
      ensures IsTable(l.protocol)
    {
      var i: nat :| i < |PROTOCOLS| && PROTOCOLS[i] == l.protocol;
      ProtocolsAreTables(i);
    }
  }
}
