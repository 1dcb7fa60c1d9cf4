/**
 Names in the CM generator (cfg/_gen.py): OID segments, class names and attribute names.

 Segments are ASCII: a non-ASCII letter, which Python counts as a word character, is not modelled.
 */
module CfgNames {
  /** A place in the object tree: the last segment and what is above it; Top is above every root. */
  datatype Path = Top | Sub(up: Path, seg: string)

  /** "/" before every segment. */
  function Oid(p: Path): string {
    match p
    case Top => ""
    case Sub(up, seg) => Oid(up) + "/" + seg
  }

  /** Text that stands in a quoted or formatted Python string as it is. */
  predicate Literal(s: string) {
    forall c <- s :: ' ' <= c <= '~' && c != '"' && c != '\\' && c != '{' && c != '}'
  }

  ghost predicate Segment(s: string) {
    s != [] && '/' !in s && ':' !in s && Literal(s)
  }

  ghost predicate Canonical(p: Path) {
    p.Sub? ==> p.seg != [] && '/' !in p.seg && Canonical(p.up)
  }

  /** p is q or above it. */
  predicate Under(p: Path, q: Path) {
    p == q || (q.Sub? && Under(p, q.up))
  }

  function SlashAt(s: string): (n: nat)
    ensures n <= |s| && '/' !in s[..n] && (n < |s| ==> s[n] == '/')
  {
    if s == [] || s[0] == '/' then 0
    else
      assert s[..1 + SlashAt(s[1..])] == [s[0]] + s[1..][..SlashAt(s[1..])];
      1 + SlashAt(s[1..])
  }

  /** [s for s in oid.split("/") if s] */
  function Segs(oid: string): (p: seq<string>)
    ensures forall i :: 0 <= i < |p| ==> p[i] != [] && '/' !in p[i]
    decreases |oid|
  {
    var n := SlashAt(oid);
    var head := if n == 0 then [] else [oid[..n]];
    if n == |oid| then head else head + Segs(oid[n + 1..])
  }

  function PathOf(segs: seq<string>): Path {
    if segs == [] then Top else Sub(PathOf(segs[..|segs| - 1]), segs[|segs| - 1])
  }

  lemma {:induction false} PathIsCanonical(segs: seq<string>)
    requires forall i :: 0 <= i < |segs| ==> segs[i] != [] && '/' !in segs[i]
    ensures Canonical(PathOf(segs))
  {
    if segs != [] {
      PathIsCanonical(segs[..|segs| - 1]);
    }
  }

  /** An OID splits into exactly the path it was joined from, so different canonical paths have different OIDs. */
  lemma {:induction false} PathOfOid(p: Path)
    requires Canonical(p)
    ensures PathOf(Segs(Oid(p))) == p
  {
    if p.Sub? {
      PathOfOid(p.up);
      SegsAppend(Oid(p.up), p.seg);
      var segs := Segs(Oid(p.up)) + [p.seg];
      assert segs[..|segs| - 1] == Segs(Oid(p.up));
    }
  }

  lemma {:induction false} SegsWhole(s: string)
    requires s != [] && '/' !in s
    ensures Segs(s) == [s]
  {
    assert SlashAt(s) == |s|;
    assert s[..|s|] == s;
  }

  lemma {:induction false} SegsAppend(a: string, s: string)
    requires s != [] && '/' !in s
    ensures Segs(a + "/" + s) == Segs(a) + [s]
    decreases |a|
  {
    var t, n := a + "/" + s, SlashAt(a);
    SlashOfConcat(a, "/" + s);
    assert t == a + ("/" + s);
    assert t[..n] == a[..n];
    if n == |a| {
      assert t[n + 1..] == s;
      SegsWhole(s);
    } else {
      assert t[n + 1..] == a[n + 1..] + "/" + s;
      SegsAppend(a[n + 1..], s);
      var head := if n == 0 then [] else [a[..n]];
      assert head + (Segs(a[n + 1..]) + [s]) == head + Segs(a[n + 1..]) + [s];
    }
  }

  lemma {:induction false} SlashOfConcat(a: string, b: string)
    requires b == [] || b[0] == '/'
    ensures SlashAt(a + b) == SlashAt(a)
  {
    if a != [] && a[0] != '/' {
      assert (a + b)[1..] == a[1..] + b;
      SlashOfConcat(a[1..], b);
    } else if a == [] {
      assert a + b == b;
    }
  }

  // ---- identifiers -----------------------------------------------------------------

  predicate Lower(c: char) { 'a' <= c <= 'z' }
  predicate Upper(c: char) { 'A' <= c <= 'Z' }
  predicate Digit(c: char) { '0' <= c <= '9' }
  predicate Letter(c: char) { Lower(c) || Upper(c) }
  predicate Word(c: char) { Letter(c) || Digit(c) || c == '_' }

  function ToUpper(c: char): char { if Lower(c) then c - 'a' + 'A' else c }
  function ToLower(c: char): char { if Upper(c) then c - 'A' + 'a' else c }

  /** str.title() after every run of other characters became a space, and the spaces dropped. */
  function PascalFrom(s: string, inWord: bool): string {
    if s == [] then []
    else if Letter(s[0]) then [if inWord then ToLower(s[0]) else ToUpper(s[0])] + PascalFrom(s[1..], true)
    else if Digit(s[0]) then [s[0]] + PascalFrom(s[1..], false)
    else PascalFrom(s[1..], false)
  }

  function Pascal(seg: string): string {
    PascalFrom(seg, false)
  }

  function PascalBelow(p: Path, root: Path): string {
    if p == root || p.Top? then [] else PascalBelow(p.up, root) + Pascal(p.seg)
  }

  /** class_name: the root by its last segment, descendants by their path below it. */
  function ClassName(p: Path, root: Path): string {
    if p == root && root.Sub? then Pascal(root.seg) else PascalBelow(p, root)
  }

  const CONSTANTS: seq<string> := ["False", "None", "True"]

  const KEYWORDS_TO_DEL: seq<string> := [
    "and", "as", "assert", "async", "await", "break", "class", "continue", "def", "del"]

  const KEYWORDS_TO_LAMBDA: seq<string> := [
    "elif", "else", "except", "finally", "for", "from", "global", "if", "import", "in", "is", "lambda"]

  const KEYWORDS_TO_YIELD: seq<string> := [
    "nonlocal", "not", "or", "pass", "raise", "return", "try", "while", "with", "yield"]

  const KEYWORDS: seq<string> := CONSTANTS + KEYWORDS_TO_DEL + KEYWORDS_TO_LAMBDA + KEYWORDS_TO_YIELD

  const RESERVED: seq<string> := ["oid", "name", "saved", "value"]

  /** What Python takes as the name of a class, an attribute or a parameter. */
  predicate Identifier(s: string) {
    s != [] && !Digit(s[0]) && (forall c <- s :: Word(c)) && s !in KEYWORDS && s != "__debug__"
  }

  /** In a class body such a name is changed or has a meaning of its own. */
  predicate Dunder(s: string) {
    |s| >= 2 && s[0] == '_' && s[1] == '_'
  }

  function Sanitized(s: string): (r: string)
    ensures |r| == |s| && forall i :: 0 <= i < |r| ==> r[i] == if Word(s[i]) then s[i] else '_'
  {
    if s == [] then [] else [if Word(s[0]) then s[0] else '_'] + Sanitized(s[1..])
  }

  /** attr_name */
  function AttrName(seg: string): string {
    var a := Sanitized(seg);
    var b := if a != [] && Digit(a[0]) then "_" + a else a;
    if b in KEYWORDS || b in RESERVED then b + "_" else b
  }

  predicate EndsPlainly(w: string) {
    w != [] && w[|w| - 1] != '_'
  }

  /** Every keyword but the constants starts with a small letter, and none ends with an underscore. */
  predicate KeywordLike(w: string) {
    EndsPlainly(w) && Lower(w[0])
  }

  lemma {:induction false} KeywordsAre(w: string)
    ensures w in KEYWORDS ==> w in CONSTANTS || KeywordLike(w)
  {
    hide CONSTANTS, KEYWORDS_TO_DEL, KEYWORDS_TO_LAMBDA, KEYWORDS_TO_YIELD, KeywordLike;
    ToDel();
    ToLambda();
    ToYield();
  }

  lemma {:induction false} ToDel()
    ensures forall w <- KEYWORDS_TO_DEL :: KeywordLike(w)
  {
  }

  lemma {:induction false} ToLambda()
    ensures forall w <- KEYWORDS_TO_LAMBDA :: KeywordLike(w)
  {
  }

  lemma {:induction false} ToYield()
    ensures forall w <- KEYWORDS_TO_YIELD :: KeywordLike(w)
  {
  }

  lemma {:induction false} ConstantsAre(w: string)
    ensures w in CONSTANTS <==> w == "False" || w == "None" || w == "True"
    ensures w in CONSTANTS ==> EndsPlainly(w) && w in KEYWORDS
  {
    hide KEYWORDS_TO_DEL, KEYWORDS_TO_LAMBDA, KEYWORDS_TO_YIELD;
    assert CONSTANTS[0] == "False" && CONSTANTS[1] == "None" && CONSTANTS[2] == "True";
  }

  lemma {:induction false} ReservedAre(w: string)
    ensures w in RESERVED <==> w == "oid" || w == "name" || w == "saved" || w == "value"
    ensures w in RESERVED ==> EndsPlainly(w)
  {
    assert RESERVED[0] == "oid" && RESERVED[1] == "name" && RESERVED[2] == "saved" && RESERVED[3] == "value";
  }

  lemma {:induction false} NotListed(r: string)
    requires r != [] && r[|r| - 1] == '_'
    ensures r !in KEYWORDS && r !in RESERVED
  {
    hide KEYWORDS, RESERVED, CONSTANTS;
    KeywordsAre(r);
    ConstantsAre(r);
    ReservedAre(r);
  }

  /** An attribute name is a valid identifier that is no keyword and shadows no engine name. */
  lemma {:induction false} AttrNameIsUsable(seg: string)
    requires seg != []
    ensures var a := AttrName(seg);
      && a !in KEYWORDS && a !in RESERVED
      && a != [] && !Digit(a[0]) && forall i :: 0 <= i < |a| ==> Word(a[i])
  {
    hide KEYWORDS, RESERVED;
    var a := Sanitized(seg);
    var b := if Digit(a[0]) then "_" + a else a;
    NotListed(b + "_");
  }

  lemma {:induction false} PascalWords(s: string, inWord: bool)
    ensures forall c <- PascalFrom(s, inWord) :: Letter(c) || Digit(c)
    ensures !inWord && PascalFrom(s, inWord) != [] ==> !Lower(PascalFrom(s, inWord)[0])
  {
    if s != [] {
      PascalWords(s[1..], Letter(s[0]));
    }
  }

  lemma {:induction false} BelowWords(p: Path, root: Path)
    ensures forall c <- PascalBelow(p, root) :: Letter(c) || Digit(c)
    ensures PascalBelow(p, root) != [] ==> !Lower(PascalBelow(p, root)[0])
  {
    hide PascalFrom;
    if p != root && p.Sub? {
      BelowWords(p.up, root);
      PascalWords(p.seg, false);
    }
  }

  /** Of the keywords only three start with a capital. */
  lemma {:induction false} CapitalKeyword(w: string)
    requires w != "" && !Lower(w[0])
    ensures w in KEYWORDS <==> w == "False" || w == "None" || w == "True"
  {
    hide KEYWORDS, CONSTANTS;
    KeywordsAre(w);
    ConstantsAre(w);
  }

  /** A class name is an identifier unless it is empty, starts with a digit or is False, None or True. */
  lemma {:induction false} ClassNameIsIdentifier(p: Path, root: Path)
    ensures var name := ClassName(p, root);
      Identifier(name) <==> name != "" && !Digit(name[0]) && name !in ["False", "None", "True"]
  {
    hide KEYWORDS, ClassName;
    var name := ClassName(p, root);
    ClassNameIsPascal(p, root);
    if name != "" { CapitalKeyword(name); }
    NoPlainDebug(name);
  }

  lemma {:induction false} ClassNameIsPascal(p: Path, root: Path)
    ensures var name := ClassName(p, root);
      (forall c <- name :: Letter(c) || Digit(c)) && (name != "" ==> !Lower(name[0]))
  {
    hide PascalFrom, PascalBelow;
    BelowWords(p, root);
    if p == root && root.Sub? { PascalWords(root.seg, false); }
  }

  lemma {:induction false} NoPlainDebug(name: string)
    requires forall c <- name :: Letter(c) || Digit(c)
    ensures name != "__debug__"
  {
    if name != "" { assert name[0] in name; }
  }
}
