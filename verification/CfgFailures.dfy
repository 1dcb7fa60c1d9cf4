/** Register entries whose modules cannot be imported, or are imported and wrong. */
module CfgFailures {
  import opened Common
  import opened CfgNames
  import opened CfgTree
  import opened CfgEmit
  import opened CfgEngine
  import opened CfgShape
  import opened CfgImport
  import opened CfgGenerate
  import opened CfgTheorems

  lemma {:induction false} SinglePath(e: Entry, s: string)
    requires Segment(s) && e.oid == "/agent/" + s
    ensures var p := Sub(Top, "agent");
      PathOfEntry(e) == Sub(p, s) && e.oid == Oid(Sub(p, s)) && e.oid != Oid(p) && Plain([e])
  {
    hide Segs, PathOf;
    var p := Sub(Top, "agent");
    var q := Sub(p, s);
    assert Oid(Top) == "" && Oid(p) == "" + "/" + "agent" == "/agent" && Oid(q) == "/agent" + "/" + s == "/agent/" + s;
    assert '/' !in "agent";
    assert Canonical(q);
    PathOfOid(q);
    assert |Oid(q)| > |Oid(p)|;
    assert Literal("/agent/") && ':' !in "/agent/";
    assert forall c <- "/agent/" + s :: c in "/agent/" || c in s;
  }

  /** A tree of one entry one level below the agent. */
  lemma {:induction false} SingleTree(e: Entry, s: string)
    requires Segment(s) && e.oid == "/agent/" + s
    ensures var p := Sub(Top, "agent");
      && Known([e], p) && Known([e], Sub(p, s))
      && TreeOf([e], Sub(p, s)) == Tree(s, Sub(p, s), Some(e), [])
      && TreeOf([e], p) == Tree("agent", p, None, [Tree(s, Sub(p, s), Some(e), [])])
      && Order([e], p) == [s] && Order([e], Sub(p, s)) == [] && Registered([e], p) == None
        && Registered([e], Sub(p, s)) == Some(e)
  {
    hide Segs, PathOf, Oid, Literal, Segment;
    var es, p := [e], Sub(Top, "agent");
    var q := Sub(p, s);
    SinglePath(e, s);
    assert es[..0] == [] && Registered([], p) == None && Order([], p) == [] && Order([], q) == [];
    assert NextSeg(p, q) == Some(s);
    assert NextSeg(q, q) == None by { assert NextSeg(q, p) == None; }
    assert e in es && Under(q, q) && Under(p, q);
    LessRoom(es, p, s);
    assert Subtrees(es, q, []) == [];
    assert [s][1..] == [];
    assert Subtrees(es, p, [s]) == [TreeOf(es, q)] + Subtrees(es, p, []);
  }

  /** A module of one class: a root without children. */
  lemma {:induction false} LoneRoot(t: Tree, init: Init)
    requires t.kids == [] && SelfMembers(t.entry) == Ok([])
    ensures EmitModule(t, init, None).Ok?
    ensures EmitModule(t, init, None).value.blocks == [ClassDef(ClassName(t.path, t.path), [], Some(init))]
  {
    hide Oid, ClassName;
    var named := Out([], {"CfgObject"}, map[ClassName(t.path, t.path) := Oid(t.path)]);
    assert EmitKids(t, [], t.path, init, named, {}) == Ok((named, []));
    var none: seq<Member> := [];
    assert none + none == none;
  }

  lemma {:induction false} LoneClass(t: Tree, root: Path, init: Init, out: Out)
    requires t.kids == [] && SelfMembers(t.entry) == Ok([]) && t.path != root && ClassName(t.path, root) !in out.cnames
    ensures var name := ClassName(t.path, root);
      EmitClass(t, root, init, None, out)
      == Ok(Out(out.blocks + [ClassDef(name, [], None)], out.used, out.cnames[name := Oid(t.path)]))
  {
    hide Oid, ClassName;
    var name := ClassName(t.path, root);
    var named := Out(out.blocks, out.used, out.cnames[name := Oid(t.path)]);
    assert EmitKids(t, [], root, init, named, {}) == Ok((named, []));
    var none: seq<Member> := [];
    assert none + none == none;
  }

  /** A module of two classes: a root without an entry, and its one child without children or a value. */
  lemma {:induction false} RootAndChild(t: Tree, kid: Tree, init: Init)
    requires t.kids == [kid] && t.entry == None && kid.kids == [] && t.path != kid.path
    requires SelfMembers(kid.entry) == Ok([]) && !KindOf(kid).Knob? && MemberFor(kid, t.path).Ok?
    requires ClassName(kid.path, t.path) != ClassName(t.path, t.path)
    ensures EmitModule(t, init, None).Ok?
    ensures EmitModule(t, init, None).value.blocks ==
      [ClassDef(ClassName(kid.path, t.path), [], None),
        ClassDef(ClassName(t.path, t.path), [MemberFor(kid, t.path).value], Some(init))]
  {
    hide Oid, AttrName, ClassName, MemberFor, KindOf;
    var name, top, m := ClassName(kid.path, t.path), ClassName(t.path, t.path), MemberFor(kid, t.path).value;
    var low, high := ClassDef(name, [], None), ClassDef(top, [m], Some(init));
    var named := Out([], {"CfgObject"}, map[top := Oid(t.path)]);
    var used := named.(used := named.used + {EngineName(m)});
    var below := Out([] + [low], used.used, used.cnames[name := Oid(kid.path)]);
    LoneClass(kid, t.path, init, used);
    assert [kid][1..] == [];
    assert EmitKids(t, [], t.path, init, below, {} + {AttrName(kid.seg)}) == Ok((below, []));
    assert [m] + [] == [m] && [] + [m] == [m];
    assert EmitKids(t, [kid], t.path, init, named, {}) == Ok((below, [m]));
    assert EmitClass(t, t.path, init, None, EMPTY_OUT) == Ok(below.(blocks := below.blocks + [high]));
    assert below.blocks + [high] == [low, high];
  }

  lemma {:induction false} LowerStays(s: string)
    requires forall i :: 0 <= i < |s| ==> Lower(s[i])
    ensures PascalFrom(s, true) == s
  {
    if s != [] {
      LowerStays(s[1..]);
    }
  }

  lemma {:induction false} PascalWord(c: char, rest: string)
    requires Lower(c) && forall i :: 0 <= i < |rest| ==> Lower(rest[i])
    ensures Pascal([c] + rest) == [ToUpper(c)] + rest
  {
    assert ([c] + rest)[1..] == rest;
    LowerStays(rest);
  }

  /** The class of a child of the agent with a plain name. */
  lemma {:induction false} ChildClass(c: char, rest: string)
    requires Lower(c) && forall i :: 0 <= i < |rest| ==> Lower(rest[i])
    ensures var p := Sub(Top, "agent");
      ClassName(Sub(p, [c] + rest), p) == [ToUpper(c)] + rest && ClassName(p, p) == "Agent"
  {
    hide Pascal;
    var p, name := Sub(Top, "agent"), [ToUpper(c)] + rest;
    PascalWord(c, rest);
    PascalWord('a', "gent");
    assert "agent" == ['a'] + "gent" && "Agent" == ['A'] + "gent";
    assert PascalBelow(p, p) == "" && "" + name == name;
  }

  /** The module for the agent with one entry, without a value, one level below it. */
  lemma {:induction false} AgentModule(e: Entry, c: char, rest: string)
    requires e.oid == "/agent/" + ([c] + rest) && e.typ == "none"
    requires Lower(c) && (forall i :: 0 <= i < |rest| ==> Lower(rest[i])) && [ToUpper(c)] + rest != "Agent"
    ensures var p := Sub(Top, "agent");
      var t, out := TreeOf([e], p), EmitModule(TreeOf([e], p), InitSpec([e], p), None);
      && out.Ok? && (Import(out.value).Some? <==> Loads(out.value.blocks))
      && |out.value.blocks| == 2 && out.value.blocks[0].name == [ToUpper(c)] + rest
      && |out.value.blocks[1].members| == 1 && (e.name != "none" ==> out.value.blocks[1].members[0].CollMember?)
  {
    hide Oid, AttrName, EmitModule, Import, PascalFrom, InitSpec, ClassName, TreeOf, Known, Segs, PathOf, Plain, Loads;
    var p, s := Sub(Top, "agent"), [c] + rest;
    LowerIsSegment(s);
    SinglePath(e, s);
    SingleTree(e, s);
    ChildClass(c, rest);
    var t := TreeOf([e], p);
    RootAndChild(t, t.kids[0], InitSpec([e], p));
    ModuleRuns([e], p, None);
  }

  lemma {:induction false} LowerIsSegment(s: string)
    requires s != "" && forall i :: 0 <= i < |s| ==> Lower(s[i])
    ensures Segment(s)
  {
  }

  /** The name of a collection's class can be that of the engine's: the entry /agent/collection is emitted without
      complaint, and its module fails on import, because the body of Agent then calls the generated class. */
  lemma {:induction false} ShadowedEngineClass(e: Entry)
    requires e.oid == "/agent/collection" && e.name == "id" && e.typ == "none"
    ensures var p := Sub(Top, "agent");
      var out := EmitModule(TreeOf([e], p), InitSpec([e], p), None);
      out.Ok? && Import(out.value) == None
  {
    hide EmitModule, Import, InitSpec, TreeOf, Loads;
    CollectionIsSpelled();
    AgentModule(e, 'c', "ollection");
    CollectionIsHidden(EmitModule(TreeOf([e], Sub(Top, "agent")), InitSpec([e], Sub(Top, "agent")), None).value.blocks);
  }

  lemma {:induction false} CollectionIsHidden(blocks: seq<ClassDef>)
    requires |blocks| == 2 && blocks[0].name == "Collection" && |blocks[1].members| == 1
      && blocks[1].members[0].CollMember?
    ensures !Loads(blocks)
  {
    assert blocks[..1] == [blocks[0]] && blocks[0] in blocks[..1];
    assert !Callable(blocks[1].members[0], NamesOf(blocks[..1]), {} + AttrsOf(blocks[1].members[..0]));
  }

  lemma {:induction false} CollectionIsSpelled()
    ensures "/agent/collection" == "/agent/" + (['c'] + "ollection") && "Collection" == [ToUpper('c')] + "ollection"
    ensures forall i :: 0 <= i < |"ollection"| ==> Lower("ollection"[i])
  {
  }

  /** The name of a class can be a keyword: the entry /agent/none is emitted as a class None, which does not parse. */
  lemma {:induction false} KeywordClass(e: Entry)
    requires e.oid == "/agent/none" && e.name == "none" && e.typ == "none"
    ensures var p := Sub(Top, "agent");
      var out := EmitModule(TreeOf([e], p), InitSpec([e], p), None);
      out.Ok? && Import(out.value) == None
  {
    hide EmitModule, Import, InitSpec, TreeOf;
    assert "/agent/none" == "/agent/" + (['n'] + "one") && "None" == [ToUpper('n')] + "one";
    AgentModule(e, 'n', "one");
    NoneIsKeyword();
    var made := EmitModule(TreeOf([e], Sub(Top, "agent")), InitSpec([e], Sub(Top, "agent")), None).value;
    assert !Identifier(made.blocks[0].name);
  }

  lemma {:induction false} NoneIsKeyword()
    ensures "None" in KEYWORDS
  {
    ConstantsAre("None");
  }

  /** The key of a collection can be no parameter: with the entry /agent/conn named ip:port, the module for its class
      does not parse. */
  lemma {:induction false} KeyIsNoParameter(e: Entry)
    requires e.oid == "/agent/conn" && e.name == "ip:port" && e.typ == "none"
    ensures var p := Sub(Sub(Top, "agent"), "conn");
      var out := EmitModule(TreeOf([e], p), InitSpec([e], p), None);
      out.Ok? && Import(out.value) == None
  {
    hide Oid, EmitModule, Import, ClassName, TreeOf, Known, Segs, PathOf, Identifier, Levels, Signature, Params;
    var p := Sub(Sub(Top, "agent"), "conn");
    assert "/agent/conn" == "/agent/" + "conn";
    LowerIsSegment("conn");
    SinglePath(e, "conn");
    SingleTree(e, "conn");
    var t, init := TreeOf([e], p), InitSpec([e], p);
    LoneRoot(t, init);
    ModuleRuns([e], p, None);
    KeyIsParameter(e);
    KeyNoSignature(init.params);
    var blocks := EmitModule(t, init, None).value.blocks;
    assert blocks[0].init == Some(init);
  }

  lemma {:induction false} KeyIsParameter(e: Entry)
    requires var top := Sub(Top, "agent"); Registered([e], top) == None && Registered([e], Sub(top, "conn")) == Some(e)
    requires e.name == "ip:port"
    ensures Params(Levels([e], Sub(Sub(Top, "agent"), "conn"))) == ["ta", "ip:port"]
  {
    hide Registered, Order;
    var top := Sub(Top, "agent");
    var levels := Levels([e], Sub(top, "conn"));
    assert Levels([e], Top) == [] && Levels([e], top) == [] + [("agent", Some("ta"))];
    assert levels == [("agent", Some("ta")), ("conn", Some("ip:port"))];
    assert levels[1..] == [("conn", Some("ip:port"))] && levels[1..][1..] == [];
    assert Params(levels[1..]) == ["ip:port"] + Params([]);
  }

  lemma {:induction false} KeyNoSignature(params: seq<string>)
    requires params == ["ta", "ip:port"]
    ensures !Signature(params)
  {
    ColonIsNoWord();
    assert params[1] in params;
  }

  lemma {:induction false} ColonIsNoWord()
    ensures !Identifier("ip:port")
  {
    assert "ip:port"[2] == ':' && ':' in "ip:port" && !Word(':');
  }

  // ---- a module that is imported and wrong -----------------------------------------------------

  /** A tree of two entries one level below the agent. */
  lemma {:induction false} TwoTree(d: Entry, e: Entry, r: string, s: string)
    requires Segment(r) && Segment(s) && r != s && d.oid == "/agent/" + r && e.oid == "/agent/" + s
    ensures var p := Sub(Top, "agent");
      && Known([d, e], p) && Plain([d, e]) && Registered([d, e], p) == None && Order([d, e], p) != []
      && TreeOf([d, e], p)
         == Tree("agent", p, None, [Tree(r, Sub(p, r), Some(d), []), Tree(s, Sub(p, s), Some(e), [])])
  {
    hide Segs, PathOf, Oid, Literal, Segment;
    var es, p := [d, e], Sub(Top, "agent");
    var q1, q2 := Sub(p, r), Sub(p, s);
    SinglePath(d, r);
    SinglePath(e, s);
    assert "/agent/" + r != "/agent/" + s by {
      assert r == ("/agent/" + r)[7..] && s == ("/agent/" + s)[7..];
    }
    RegisteredOfTwo(d, e, p);
    RegisteredOfTwo(d, e, q1);
    RegisteredOfTwo(d, e, q2);
    TwoOrders(d, e, r, s);
    assert d in es && e in es && Under(q1, q1) && Under(p, q1);
    LessRoom(es, p, r);
    LessRoom(es, p, s);
    assert Subtrees(es, q1, []) == [] && Subtrees(es, q2, []) == [];
    assert [r, s][1..] == [s] && [s][1..] == [];
    assert Subtrees(es, p, [s]) == [TreeOf(es, q2)] + Subtrees(es, p, []) == [TreeOf(es, q2)];
    assert Subtrees(es, p, [r, s]) == [TreeOf(es, q1)] + Subtrees(es, p, [s]);
  }

  lemma {:induction false} RegisteredOfTwo(d: Entry, e: Entry, x: Path)
    ensures Registered([d, e], x) == if e.oid == Oid(x) then Some(e) else if d.oid == Oid(x) then Some(d) else None
  {
    hide Oid;
    assert [d, e][..1] == [d] && [d][..0] == [];
    assert Registered([], x) == None && Registered([d], x) == if d.oid == Oid(x) then Some(d) else None;
  }

  lemma {:induction false} TwoOrders(d: Entry, e: Entry, r: string, s: string)
    requires var p := Sub(Top, "agent"); r != s && PathOfEntry(d) == Sub(p, r) && PathOfEntry(e) == Sub(p, s)
    ensures var p := Sub(Top, "agent");
      Order([d, e], p) == [r, s] && Order([d, e], Sub(p, r)) == [] && Order([d, e], Sub(p, s)) == []
  {
    hide Segs, PathOf, Order, Grow;
    var p := Sub(Top, "agent");
    forall x | x == p || x == Sub(p, r) || x == Sub(p, s)
      ensures Order([d, e], x) == Grow(Grow([], x, Sub(p, r)), x, Sub(p, s))
    {
      OrderOfTwo(d, e, x);
    }
    TwoGrow(r, s);
  }

  lemma {:induction false} OrderOfTwo(d: Entry, e: Entry, x: Path)
    ensures Order([d, e], x) == Grow(Grow([], x, PathOfEntry(d)), x, PathOfEntry(e))
  {
    hide Segs, PathOf, Grow;
    assert [d, e][..1] == [d] && [d][..0] == [];
    assert Order([], x) == [] && Order([d], x) == Grow([], x, PathOfEntry(d));
  }

  lemma {:induction false} TwoGrow(r: string, s: string)
    requires r != s
    ensures var p := Sub(Top, "agent");
      && Grow(Grow([], p, Sub(p, r)), p, Sub(p, s)) == [r, s]
      && forall x <- [Sub(p, r), Sub(p, s)] :: Grow(Grow([], x, Sub(p, r)), x, Sub(p, s)) == []
  {
    var p := Sub(Top, "agent");
    assert [] + [r] == [r] && [r] + [s] == [r, s];
    forall x | x == Sub(p, r) || x == Sub(p, s)
      ensures NextSeg(x, Sub(p, r)) == None && NextSeg(x, Sub(p, s)) == None
    {
      assert NextSeg(x, p) == None;
    }
  }

  /** A module of two classes: a root without an entry, its first child without children or a value, and a knob. */
  lemma {:induction false} RootAndTwo(t: Tree, kid: Tree, leaf: Tree, init: Init)
    requires t.kids == [kid, leaf] && t.entry == None && kid.kids == [] && t.path != kid.path
    requires SelfMembers(kid.entry) == Ok([]) && !KindOf(kid).Knob? && MemberFor(kid, t.path).Ok?
    requires KindOf(leaf).Knob? && MemberFor(leaf, t.path).Ok? && AttrName(kid.seg) != AttrName(leaf.seg)
    requires ClassName(kid.path, t.path) != ClassName(t.path, t.path)
    ensures EmitModule(t, init, None).Ok?
    ensures EmitModule(t, init, None).value.blocks ==
      [ClassDef(ClassName(kid.path, t.path), [], None),
        ClassDef(ClassName(t.path, t.path), [MemberFor(kid, t.path).value, MemberFor(leaf, t.path).value], Some(init))]
  {
    hide Oid, AttrName, ClassName, MemberFor, KindOf;
    var name, top := ClassName(kid.path, t.path), ClassName(t.path, t.path);
    var m, k := MemberFor(kid, t.path).value, MemberFor(leaf, t.path).value;
    var low, high := ClassDef(name, [], None), ClassDef(top, [m, k], Some(init));
    var named := Out([], {"CfgObject"}, map[top := Oid(t.path)]);
    var used := named.(used := named.used + {EngineName(m)});
    var below := Out([] + [low], used.used, used.cnames[name := Oid(kid.path)]);
    var last := below.(used := below.used + {EngineName(k)});
    LoneClass(kid, t.path, init, used);
    assert [kid, leaf][1..] == [leaf] && [leaf][1..] == [];
    var attrs := {} + {AttrName(kid.seg)};
    assert EmitKids(t, [], t.path, init, last, attrs + {AttrName(leaf.seg)}) == Ok((last, []));
    assert [k] + [] == [k] && [m] + [k] == [m, k] && [] + [m, k] == [m, k];
    assert EmitKids(t, [leaf], t.path, init, below, attrs) == Ok((last, [k]));
    assert EmitKids(t, [kid, leaf], t.path, init, named, {}) == Ok((last, [m, k]));
    assert EmitClass(t, t.path, init, None, EMPTY_OUT) == Ok(last.(blocks := last.blocks + [high]));
    assert last.blocks + [high] == [low, high];
  }

  lemma {:induction false} FirstOfAttr(seg: string)
    requires seg != "" && Lower(seg[0])
    ensures AttrName(seg) != "" && AttrName(seg)[0] == seg[0]
  {
    hide KEYWORDS, RESERVED;
  }

  /** The module for a collection /agent/str-knob and a writable string /agent/dir. */
  lemma {:induction false} StrKnobModule(d: Entry, e: Entry)
    requires d.oid == "/agent/str-knob" && d.name == "id" && d.typ == "none"
    requires e.oid == "/agent/dir" && e.name == "none" && e.typ == "string" && e.access == "read_write" && !e.volatile
    ensures var p := Sub(Top, "agent");
      var out := EmitModule(TreeOf([d, e], p), InitSpec([d, e], p), None);
      && Known([d, e], p) && Plain([d, e]) && out.Ok? && |out.value.blocks| == 2
      && out.value.blocks[0] == ClassDef("StrKnob", [], None) && out.value.blocks[1].name == "Agent"
      && out.value.blocks[1].init == Some(InitSpec([d, e], p)) && StrKnobMembers(out.value.blocks[1].members)
  {
    hide Oid, AttrName, EmitModule, InitSpec, TreeOf, Known, Plain, ClassName, MemberFor, KindOf, Segment,
      StrKnobMembers;
    var p, es := Sub(Top, "agent"), [d, e];
    assert d.oid == "/agent/" + "str-knob" && e.oid == "/agent/" + "dir";
    assert Segment("str-knob") && Segment("dir") by { StrKnobSegments(); }
    TwoTree(d, e, "str-knob", "dir");
    var t := TreeOf(es, p);
    StrKnobClass();
    StrKnobChildren(t.kids[0], t.kids[1], d, e);
    RootAndTwo(t, t.kids[0], t.kids[1], InitSpec(es, p));
  }

  lemma {:induction false} StrKnobSegments()
    ensures Segment("str-knob") && Segment("dir")
  {
  }

  lemma {:induction false} StrKnobChildren(kid: Tree, leaf: Tree, d: Entry, e: Entry)
    requires d.name == "id" && d.typ == "none"
    requires e.name == "none" && e.typ == "string" && e.access == "read_write" && !e.volatile
    requires kid == Tree("str-knob", Sub(Sub(Top, "agent"), "str-knob"), Some(d), [])
    requires leaf == Tree("dir", Sub(Sub(Top, "agent"), "dir"), Some(e), [])
    ensures var p := Sub(Top, "agent");
      && !KindOf(kid).Knob? && KindOf(leaf).Knob? && MemberFor(kid, p).Ok? && MemberFor(leaf, p).Ok?
      && AttrName(kid.seg) != AttrName(leaf.seg)
      && StrKnobMembers([MemberFor(kid, p).value, MemberFor(leaf, p).value])
  {
    hide AttrName, ClassName;
    FirstOfAttr("str-knob");
    FirstOfAttr("dir");
    assert CvtFor("string") == Some("STRING");
  }

  ghost predicate StrKnobMembers(ms: seq<Member>) {
    && |ms| == 2 && ms[0].CollMember? && ms[0].attr != "" && ms[0].attr[0] == 's'
    && ms[1].KnobMember? && ms[1].attr != "" && ms[1].attr[0] == 'd' && ms[1].knob == "StrKnob"
    && !ms[1].readOnly && !ms[1].sync
  }

  /** A knob can become the object of a class that took its engine class's place: with a collection /agent/str-knob in
      front of a writable string /agent/dir, the module is imported, and its attribute dir is no knob. */
  lemma {:induction false} ImportedAndWrong(d: Entry, e: Entry)
    requires d.oid == "/agent/str-knob" && d.name == "id" && d.typ == "none"
    requires e.oid == "/agent/dir" && e.name == "none" && e.typ == "string" && e.access == "read_write" && !e.volatile
    ensures var p := Sub(Top, "agent");
      var out := EmitModule(TreeOf([d, e], p), InitSpec([d, e], p), None);
      out.Ok? && Import(out.value).Some? && !NamesAreRight(out.value.blocks)
  {
    hide EmitModule, Import, InitSpec, TreeOf, Known, Plain, Loads, NamesAreRight, StrKnobMembers;
    var p, es := Sub(Top, "agent"), [d, e];
    StrKnobModule(d, e);
    ModuleRuns(es, p, None);
    AgentParams(es);
    StrKnobHides(EmitModule(TreeOf(es, p), InitSpec(es, p), None).value.blocks);
  }

  lemma {:induction false} StrKnobClass()
    ensures var p := Sub(Top, "agent"); ClassName(Sub(p, "str-knob"), p) == "StrKnob" && ClassName(p, p) == "Agent"
  {
    hide Pascal;
    var p := Sub(Top, "agent");
    ChildClass('d', "ir");
    assert PascalBelow(p, p) == "";
    assert Pascal("str-knob") == "StrKnob" by { PascalStrKnob(); }
  }

  lemma {:induction false} PascalStrKnob()
    ensures Pascal("str-knob") == "StrKnob"
  {
    hide PascalFrom;
    LowerStays("tr");
    LowerStays("nob");
    PascalStep('s', "tr-knob", false);
    PascalStep('t', "r-knob", true);
    PascalStep('r', "-knob", true);
    PascalStep('-', "knob", true);
    PascalStep('k', "nob", false);
    assert "str-knob" == ['s'] + "tr-knob" && "tr-knob" == ['t'] + "r-knob" && "r-knob" == ['r'] + "-knob";
    assert "-knob" == ['-'] + "knob" && "knob" == ['k'] + "nob";
    assert "StrKnob" == ['S'] + (['t'] + (['r'] + ([] + (['K'] + "nob"))));
  }

  lemma {:induction false} PascalStep(c: char, rest: string, inWord: bool)
    ensures PascalFrom([c] + rest, inWord) ==
      (if Letter(c) then [if inWord then ToLower(c) else ToUpper(c)] else if Digit(c) then [c] else [])
      + PascalFrom(rest, Letter(c))
  {
    assert ([c] + rest)[1..] == rest;
  }

  lemma {:induction false} AgentParams(es: seq<Entry>)
    ensures InitSpec(es, Sub(Top, "agent")).params == ["ta"]
  {
    hide Registered, Order, Template;
    var p := Sub(Top, "agent");
    var levels := Levels(es, p);
    assert Levels(es, Top) == [] && levels == [] + [("agent", Some("ta"))];
    assert levels[1..] == [] && Params(levels) == ["ta"] + Params([]);
  }

  lemma {:induction false} StrKnobHides(blocks: seq<ClassDef>)
    requires |blocks| == 2 && blocks[0] == ClassDef("StrKnob", [], None) && blocks[1].name == "Agent"
    requires blocks[1].init.Some? && blocks[1].init.value.params == ["ta"] && StrKnobMembers(blocks[1].members)
    ensures Loads(blocks) && !NamesAreRight(blocks)
  {
    hide Identifier, Signature, BodyLoads, RightBlock;
    var ms, names := blocks[1].members, NamesOf(blocks[..1]);
    assert blocks[..1] == [blocks[0]] && blocks[0] in blocks[..1];
    assert forall n <- names :: n == "StrKnob";
    PlainNames();
    assert BodyLoads(blocks[0].members, NamesOf(blocks[..0]), {}) by { NothingLoads(blocks[0].members); }
    assert BodyLoads(ms, names, {}) && !RightBlock(blocks, 1) by { StrKnobIsCalled(blocks); }
  }

  lemma {:induction false} NothingLoads(ms: seq<Member>)
    requires ms == []
    ensures forall names :: BodyLoads(ms, names, {})
  {
  }

  lemma {:induction false} StrKnobIsCalled(blocks: seq<ClassDef>)
    requires |blocks| == 2 && NamesOf(blocks[..1]) == {"StrKnob"} && StrKnobMembers(blocks[1].members)
    ensures BodyLoads(blocks[1].members, NamesOf(blocks[..1]), {}) && !RightBlock(blocks, 1)
  {
    var ms, names := blocks[1].members, NamesOf(blocks[..1]);
    assert ms[..1] == [ms[0]] && ms[..0] == [];
    assert Callable(ms[0], names, {} + AttrsOf(ms[..0])) && Callable(ms[1], names, {} + AttrsOf(ms[..1]));
    assert !RightMember(ms, 1, names);
  }

  lemma {:induction false} PlainNames()
    ensures Identifier("StrKnob") && Identifier("Agent") && Signature(["ta"])
  {
    hide KEYWORDS;
    CapitalKeyword("StrKnob");
    CapitalKeyword("Agent");
    assert "ta" !in KEYWORDS by { TaIsNoKeyword(); }
  }

  lemma {:induction false} TaIsNoKeyword()
    ensures "ta" !in KEYWORDS
  {
    assert "ta" !in KEYWORDS_TO_DEL;
    assert "ta" !in KEYWORDS_TO_LAMBDA;
    assert "ta" !in KEYWORDS_TO_YIELD;
  }
}
