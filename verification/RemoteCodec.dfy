/**
 There are codecs as RemoteEngine assumes them: replies can be written as lines of digits, and read back. Every part of
 a reply is written so that its end can be told, and the line is then as good as any JSON text.
 */
module RemoteCodec {
  import opened Common
  import opened RemoteMarshal
  import opened RemoteEngine

  /** A number in unary, in front of what follows. */
  function Unary(n: nat, rest: string): string {
    if n == 0 then "0" + rest else "1" + Unary(n - 1, rest)
  }

  function OfInt(n: int, rest: string): string {
    if n < 0 then Unary(0, Unary(-n, rest)) else Unary(1, Unary(n, rest))
  }

  function OfString(s: string, rest: string): string {
    if s == "" then Unary(0, rest) else Unary(1, Unary(s[0] as int, OfString(s[1..], rest)))
  }

  function OfAtom(a: Atom, rest: string): string {
    match a
    case Null => Unary(0, rest)
    case Bool(b) => Unary(1, Unary(if b then 1 else 0, rest))
    case Num(n) => Unary(2, OfInt(n, rest))
    case Float(m, e) => Unary(3, OfInt(m, OfInt(e, rest)))
    case Str(s) => Unary(4, OfString(s, rest))
  }

  function OfJson(j: Json, rest: string): string
    decreases j, 0
  {
    match j
    case Leaf(a) => Unary(0, OfAtom(a, rest))
    case Arr(items) => Unary(1, OfList(items, rest))
    case Obj(fields) => Unary(2, OfFields(fields, rest))
  }

  function OfList(js: seq<Json>, rest: string): string
    decreases js, 1
  {
    if js == [] then Unary(0, rest) else Unary(1, OfJson(js[0], OfList(js[1..], rest)))
  }

  function OfFields(fs: seq<Field>, rest: string): string
    decreases fs, 1
  {
    if fs == [] then Unary(0, rest) else Unary(1, OfString(fs[0].key, OfJson(fs[0].val, OfFields(fs[1..], rest))))
  }

  function OfBody(b: Body): string {
    match b
    case Value(v) => Unary(0, OfJson(v, ""))
    case Failed(Fault(kind, msg, traceback)) => Unary(1, OfString(kind, OfString(msg, OfString(traceback, ""))))
  }

  function Line(r: Reply): string {
    match r.id
    case None => Unary(0, OfBody(r.body))
    case Some(id) => Unary(1, OfInt(id, OfBody(r.body)))
  }

  // ---- nothing is written alike --------------------------------------------------------

  lemma {:induction false} UnaryTells(a: nat, b: nat, r: string, s: string)
    requires Unary(a, r) == Unary(b, s)
    ensures a == b && r == s
  {
    assert a > 0 ==> Unary(a, r)[1..] == Unary(a - 1, r);
    assert b > 0 ==> Unary(b, s)[1..] == Unary(b - 1, s);
    if a > 0 && b > 0 {
      UnaryTells(a - 1, b - 1, r, s);
    } else {
      assert a == 0 ==> Unary(a, r)[1..] == r;
      assert b == 0 ==> Unary(b, s)[1..] == s;
      assert Unary(a, r)[0] == Unary(b, s)[0];
    }
  }

  lemma {:induction false} IntTells(a: int, b: int, r: string, s: string)
    requires OfInt(a, r) == OfInt(b, s)
    ensures a == b && r == s
  {
    hide Unary;
    UnaryTells(if a < 0 then 0 else 1, if b < 0 then 0 else 1,
               Unary(if a < 0 then -a else a, r), Unary(if b < 0 then -b else b, s));
    UnaryTells(if a < 0 then -a else a, if b < 0 then -b else b, r, s);
  }

  lemma {:induction false} StringTells(a: string, b: string, r: string, s: string)
    requires OfString(a, r) == OfString(b, s)
    ensures a == b && r == s
  {
    hide Unary;
    var x := if a == "" then r else Unary(a[0] as int, OfString(a[1..], r));
    var y := if b == "" then s else Unary(b[0] as int, OfString(b[1..], s));
    UnaryTells(if a == "" then 0 else 1, if b == "" then 0 else 1, x, y);
    if a != "" {
      UnaryTells(a[0] as int, b[0] as int, OfString(a[1..], r), OfString(b[1..], s));
      StringTells(a[1..], b[1..], r, s);
      assert a == [a[0]] + a[1..] && b == [b[0]] + b[1..];
    }
  }

  function AtomTag(a: Atom): nat {
    match a
    case Null => 0
    case Bool(_) => 1
    case Num(_) => 2
    case Float(_, _) => 3
    case Str(_) => 4
  }

  function AtomRest(a: Atom, rest: string): string {
    match a
    case Null => rest
    case Bool(b) => Unary(if b then 1 else 0, rest)
    case Num(n) => OfInt(n, rest)
    case Float(m, e) => OfInt(m, OfInt(e, rest))
    case Str(s) => OfString(s, rest)
  }

  lemma {:induction false} AtomTells(a: Atom, b: Atom, r: string, s: string)
    requires OfAtom(a, r) == OfAtom(b, s)
    ensures a == b && r == s
  {
    hide Unary, OfInt, OfString;
    UnaryTells(AtomTag(a), AtomTag(b), AtomRest(a, r), AtomRest(b, s));
    match (a, b)
    case (Bool(x), Bool(y)) => UnaryTells(if x then 1 else 0, if y then 1 else 0, r, s);
    case (Num(x), Num(y)) => IntTells(x, y, r, s);
    case (Float(m, e), Float(m', e')) =>
      IntTells(m, m', OfInt(e, r), OfInt(e', s));
      IntTells(e, e', r, s);
    case (Str(x), Str(y)) => StringTells(x, y, r, s);
    case _ =>
  }

  lemma {:induction false} JsonTells(a: Json, b: Json, r: string, s: string)
    requires OfJson(a, r) == OfJson(b, s)
    ensures a == b && r == s
    decreases a, 0
  {
    hide Unary, OfAtom, OfList, OfFields;
    var tag := (j: Json) => if j.Leaf? then 0 else if j.Arr? then 1 else 2;
    var body := (j: Json, k: string) =>
      match j case Leaf(x) => OfAtom(x, k) case Arr(items) => OfList(items, k) case Obj(fields) => OfFields(fields, k);
    UnaryTells(tag(a), tag(b), body(a, r), body(b, s));
    match (a, b)
    case (Leaf(x), Leaf(y)) => AtomTells(x, y, r, s);
    case (Arr(x), Arr(y)) => ListTells(x, y, r, s);
    case (Obj(x), Obj(y)) => FieldsTell(x, y, r, s);
    case _ =>
  }

  lemma {:induction false} ListTells(a: seq<Json>, b: seq<Json>, r: string, s: string)
    requires OfList(a, r) == OfList(b, s)
    ensures a == b && r == s
    decreases a, 1
  {
    hide Unary, OfJson;
    UnaryTells(if a == [] then 0 else 1, if b == [] then 0 else 1,
               if a == [] then r else OfJson(a[0], OfList(a[1..], r)),
               if b == [] then s else OfJson(b[0], OfList(b[1..], s)));
    if a != [] {
      JsonTells(a[0], b[0], OfList(a[1..], r), OfList(b[1..], s));
      ListTells(a[1..], b[1..], r, s);
      assert a == [a[0]] + a[1..] && b == [b[0]] + b[1..];
    }
  }

  function FieldsRest(fs: seq<Field>, rest: string): string {
    if fs == [] then rest else OfString(fs[0].key, OfJson(fs[0].val, OfFields(fs[1..], rest)))
  }

  lemma {:induction false} FieldsTell(a: seq<Field>, b: seq<Field>, r: string, s: string)
    requires OfFields(a, r) == OfFields(b, s)
    ensures a == b && r == s
    decreases a, 1
  {
    hide Unary, OfJson, OfString;
    UnaryTells(if a == [] then 0 else 1, if b == [] then 0 else 1, FieldsRest(a, r), FieldsRest(b, s));
    if a != [] {
      var x, y := OfFields(a[1..], r), OfFields(b[1..], s);
      StringTells(a[0].key, b[0].key, OfJson(a[0].val, x), OfJson(b[0].val, y));
      JsonTells(a[0].val, b[0].val, x, y);
      FieldsTell(a[1..], b[1..], r, s);
      assert a == [a[0]] + a[1..] && b == [b[0]] + b[1..];
    }
  }

  lemma {:induction false} BodyTells(a: Body, b: Body)
    requires OfBody(a) == OfBody(b)
    ensures a == b
  {
    hide Unary, OfJson, OfString;
    var rest := (x: Body) => match x
      case Value(v) => OfJson(v, "")
      case Failed(Fault(kind, msg, traceback)) => OfString(kind, OfString(msg, OfString(traceback, "")));
    UnaryTells(if a.Value? then 0 else 1, if b.Value? then 0 else 1, rest(a), rest(b));
    match (a, b)
    case (Value(x), Value(y)) => JsonTells(x, y, "", "");
    case (Failed(Fault(k, m, t)), Failed(Fault(k', m', t'))) =>
      StringTells(k, k', OfString(m, OfString(t, "")), OfString(m', OfString(t', "")));
      StringTells(m, m', OfString(t, ""), OfString(t', ""));
      StringTells(t, t', "", "");
    case _ =>
  }

  /** Different replies have different lines. */
  lemma {:induction false} LineTells(a: Reply, b: Reply)
    requires Line(a) == Line(b)
    ensures a == b
  {
    hide Unary, OfInt, OfBody;
    var rest := (x: Reply) => match x.id case None => OfBody(x.body) case Some(id) => OfInt(id, OfBody(x.body));
    UnaryTells(if a.id.None? then 0 else 1, if b.id.None? then 0 else 1, rest(a), rest(b));
    if a.id.Some? {
      IntTells(a.id.value, b.id.value, OfBody(a.body), OfBody(b.body));
    }
    BodyTells(a.body, b.body);
  }

  // ---- lines of digits -----------------------------------------------------------------

  predicate Digits(s: string) {
    forall i :: 0 <= i < |s| ==> s[i] == '0' || s[i] == '1'
  }

  lemma {:induction false} UnaryDigits(n: nat, rest: string)
    requires Digits(rest)
    ensures Digits(Unary(n, rest)) && Unary(n, rest) != ""
  {
    if n > 0 { UnaryDigits(n - 1, rest); }
  }

  lemma {:induction false} IntDigits(n: int, rest: string)
    requires Digits(rest)
    ensures Digits(OfInt(n, rest))
  {
    hide Unary, Digits;
    UnaryDigits(if n < 0 then -n else n, rest);
    UnaryDigits(if n < 0 then 0 else 1, Unary(if n < 0 then -n else n, rest));
  }

  lemma {:induction false} StringDigits(s: string, rest: string)
    requires Digits(rest)
    ensures Digits(OfString(s, rest))
  {
    hide Unary, Digits;
    if s == "" {
      UnaryDigits(0, rest);
    } else {
      StringDigits(s[1..], rest);
      UnaryDigits(s[0] as int, OfString(s[1..], rest));
      UnaryDigits(1, Unary(s[0] as int, OfString(s[1..], rest)));
    }
  }

  lemma {:induction false} AtomDigits(a: Atom, rest: string)
    requires Digits(rest)
    ensures Digits(OfAtom(a, rest))
  {
    hide Unary, Digits, OfInt, OfString;
    match a {
      case Null =>
      case Bool(b) => UnaryDigits(if b then 1 else 0, rest);
      case Num(n) => IntDigits(n, rest);
      case Float(m, e) =>
        IntDigits(e, rest);
        IntDigits(m, OfInt(e, rest));
      case Str(s) => StringDigits(s, rest);
    }
    UnaryDigits(AtomTag(a), AtomRest(a, rest));
  }

  lemma {:induction false} JsonDigits(j: Json, rest: string)
    requires Digits(rest)
    ensures Digits(OfJson(j, rest))
    decreases j, 0
  {
    hide Unary, Digits, OfAtom, OfList, OfFields;
    match j
    case Leaf(a) =>
      AtomDigits(a, rest);
      UnaryDigits(0, OfAtom(a, rest));
    case Arr(items) =>
      ListDigits(items, rest);
      UnaryDigits(1, OfList(items, rest));
    case Obj(fields) =>
      FieldsDigits(fields, rest);
      UnaryDigits(2, OfFields(fields, rest));
  }

  lemma {:induction false} ListDigits(js: seq<Json>, rest: string)
    requires Digits(rest)
    ensures Digits(OfList(js, rest))
    decreases js, 1
  {
    hide Unary, Digits, OfJson;
    if js == [] {
      UnaryDigits(0, rest);
    } else {
      ListDigits(js[1..], rest);
      JsonDigits(js[0], OfList(js[1..], rest));
      UnaryDigits(1, OfJson(js[0], OfList(js[1..], rest)));
    }
  }

  lemma {:induction false} FieldsDigits(fs: seq<Field>, rest: string)
    requires Digits(rest)
    ensures Digits(OfFields(fs, rest))
    decreases fs, 1
  {
    hide Unary, Digits, OfJson, OfString;
    if fs == [] {
      UnaryDigits(0, rest);
    } else {
      var more := OfFields(fs[1..], rest);
      FieldsDigits(fs[1..], rest);
      JsonDigits(fs[0].val, more);
      StringDigits(fs[0].key, OfJson(fs[0].val, more));
      UnaryDigits(1, OfString(fs[0].key, OfJson(fs[0].val, more)));
    }
  }

  lemma {:induction false} LineDigits(r: Reply)
    ensures Digits(Line(r)) && Line(r) != ""
  {
    hide Unary, Digits, OfInt, OfJson, OfString;
    assert Digits("") by { NoDigits(); }
    match r.body {
      case Value(v) =>
        JsonDigits(v, "");
        UnaryDigits(0, OfJson(v, ""));
      case Failed(Fault(kind, msg, traceback)) =>
        StringDigits(traceback, "");
        StringDigits(msg, OfString(traceback, ""));
        StringDigits(kind, OfString(msg, OfString(traceback, "")));
        UnaryDigits(1, OfString(kind, OfString(msg, OfString(traceback, ""))));
    }
    match r.id {
      case None => UnaryDigits(0, OfBody(r.body));
      case Some(id) =>
        IntDigits(id, OfBody(r.body));
        UnaryDigits(1, OfInt(id, OfBody(r.body)));
    }
  }

  lemma {:induction false} NoDigits()
    ensures Digits("")
  {
  }

  /** What is assumed of JSON text can be had. */
  lemma {:induction false} LawfulCodecExists()
    ensures exists c: Codec :: Lawful(c)
  {
    var parse: string -> Option<Reply> := s => Read(s);
    var c := Codec(Line, parse);
    forall r: Reply
      ensures LineFor(c, r)
    {
      LineDigits(r);
      assert !IsSpace(Line(r)[0]);
      LineTells(r, Read(Line(r)).value);
    }
    assert Lawful(c);
  }

  /** The reply whose line s is. */
  ghost function Read(s: string): (r: Option<Reply>)
    ensures r.None? ==> forall x: Reply :: Line(x) != s
    ensures r.Some? ==> Line(r.value) == s
  {
    if x: Reply :| Line(x) == s then Some(x) else None
  }
}
