/**
 The shape of an emitted module: one class per non-knob node, all names distinct, classes before their use, exactly the
 needed imports, and usable attributes in every class.
 */
module CfgShape {
  import opened Common
  import opened CfgNames
  import opened CfgEmit

  /** The emitted nodes that are not knobs, children first. */
  ghost function ClassPaths(t: Tree, listed: Option<seq<string>>): seq<Path>
    decreases t, 1, 0
  {
    (if Items(t, listed).Ok? then KidPaths(t, Items(t, listed).value) else []) + [t.path]
  }

  ghost function KidPaths(t: Tree, items: seq<Tree>): seq<Path>
    requires forall x <- items :: x in t.kids
    decreases t, 0, |items|
  {
    if items == [] then [] else
    assert items[0] < t by { KidIsSmaller(t, items, 0); }
    (if KindOf(items[0]).Knob? then [] else ClassPaths(items[0], None)) + KidPaths(t, items[1..])
  }

  function MembersUse(ms: seq<Member>): set<string> {
    if ms == [] then {} else {EngineName(ms[0])} + MembersUse(ms[1..])
  }

  /** The engine names a module's class bodies call. */
  function UsedBy(blocks: seq<ClassDef>): set<string> {
    if blocks == [] then {} else UsedBy(blocks[..|blocks| - 1]) + MembersUse(blocks[|blocks| - 1].members)
  }

  lemma {:induction false} UsedByConcat(a: seq<ClassDef>, b: seq<ClassDef>)
    ensures UsedBy(a + b) == UsedBy(a) + UsedBy(b)
  {
    if b == [] {
      assert a + b == a;
    } else {
      assert (a + b)[..|a + b| - 1] == a + b[..|b| - 1];
      UsedByConcat(a, b[..|b| - 1]);
    }
  }

  lemma {:induction false} MembersUseConcat(a: seq<Member>, b: seq<Member>)
    ensures MembersUse(a + b) == MembersUse(a) + MembersUse(b)
  {
    if a == [] {
      assert a + b == b;
    } else {
      assert (a + b)[1..] == a[1..] + b;
      MembersUseConcat(a[1..], b);
    }
  }

  /** `added` are the blocks added between two states, one for each of `paths` and in that order, under names that are
      new and distinct; `extra` are imports of members not in a block yet. */
  ghost predicate Adds(a: Out, b: Out, added: seq<ClassDef>, paths: seq<Path>, root: Path, extra: set<string>) {
    && b.blocks == a.blocks + added
    && |added| == |paths|
    && (forall i :: 0 <= i < |paths| ==> added[i].name == ClassName(paths[i], root))
    && (forall i, j :: 0 <= i < j < |added| ==> added[i].name != added[j].name)
    && (forall i :: 0 <= i < |added| ==> added[i].name !in a.cnames && added[i].name in b.cnames
                                         && b.cnames[added[i].name] == Oid(paths[i]))
    && (forall n <- a.cnames :: n in b.cnames && b.cnames[n] == a.cnames[n])
    && b.used == a.used + UsedBy(added) + extra
  }

  lemma {:induction false} AddsThen(a: Out, b: Out, c: Out, f1: seq<ClassDef>, f2: seq<ClassDef>,
                                    p1: seq<Path>, p2: seq<Path>, root: Path, e1: set<string>, e2: set<string>)
    requires Adds(a, b, f1, p1, root, e1) && Adds(b, c, f2, p2, root, e2)
    ensures Adds(a, c, f1 + f2, p1 + p2, root, e1 + e2)
  {
    hide ClassName, Oid, UsedBy;
    UsedByConcat(f1, f2);
    assert a.blocks + (f1 + f2) == a.blocks + f1 + f2;
  }

  lemma {:induction false} AddsClass(a: Out, below: Out, added: seq<ClassDef>, paths: seq<Path>, root: Path,
                                     p: Path, def: ClassDef, named: Out, kidUse: set<string>)
    requires def.name == ClassName(p, root) && def.name !in a.cnames
    requires named.blocks == a.blocks && named.cnames == a.cnames[def.name := Oid(p)] && a.used <= named.used
    requires Adds(named, below, added, paths, root, kidUse)
    requires named.used + kidUse == a.used + MembersUse(def.members)
    ensures Adds(a, below.(blocks := below.blocks + [def]), added + [def], paths + [p], root, {})
  {
    hide ClassName, Oid;
    var all := added + [def];
    assert UsedBy(all) == UsedBy(added) + MembersUse(def.members) by { assert all[..|all| - 1] == added; }
    assert a.blocks + (added + [def]) == below.blocks + [def];
    forall n | n in a.cnames
      ensures n in below.cnames && below.cnames[n] == a.cnames[n]
    {
      assert n in named.cnames;
    }
    assert def.name in named.cnames;
  }

  lemma {:induction false} ClassShape(t: Tree, root: Path, init: Init, listed: Option<seq<string>>, out: Out)
    returns (added: seq<ClassDef>)
    requires EmitClass(t, root, init, listed, out).Ok?
    ensures Adds(out, EmitClass(t, root, init, listed, out).value, added, ClassPaths(t, listed), root, {})
    decreases t, 1, 0
  {
    hide ClassName, Oid, EmitKids, Adds, KidPaths;
    var cname := ClassName(t.path, root);
    var self, items := SelfMembers(t.entry).value, Items(t, listed).value;
    var used := if self == [] then out.used else out.used + {"SelfKnob"};
    var named := Out(out.blocks, used, out.cnames[cname := Oid(t.path)]);
    var (below, members) := EmitKids(t, items, root, init, named, {}).value;
    var kids := KidsShape(t, items, root, init, named, {});
    var def := ClassDef(cname, self + members, if t.path == root then Some(init) else None);
    MembersUseConcat(self, members);
    SelfUse(t);
    AddsClass(out, below, kids, KidPaths(t, items), root, t.path, def, named, MembersUse(members));
    added := kids + [def];
  }

  lemma {:induction false} SelfUse(t: Tree)
    requires SelfMembers(t.entry).Ok?
    ensures MembersUse(SelfMembers(t.entry).value) == if SelfMembers(t.entry).value == [] then {} else {"SelfKnob"}
  {
  }

  lemma {:induction false} KidsShape(t: Tree, items: seq<Tree>, root: Path, init: Init, out: Out, attrs: set<string>)
    returns (added: seq<ClassDef>)
    requires forall x <- items :: x in t.kids
    requires EmitKids(t, items, root, init, out, attrs).Ok?
    ensures var (rest, members) := EmitKids(t, items, root, init, out, attrs).value;
      Adds(out, rest, added, KidPaths(t, items), root, MembersUse(members))
    decreases t, 0, |items|
  {
    hide EmitClass, AttrName, MemberFor, KindOf, ClassPaths, Adds, ClassName, Oid;
    if items == [] {
      AddsNothing(out, root, {});
      assert out.(used := out.used + {}) == out;
      return [];
    }
    KidIsSmaller(t, items, 0);
    var kid := items[0];
    var m := MemberFor(kid, root).value;
    var used := out.(used := out.used + {EngineName(m)});
    AddsNothing(out, root, {EngineName(m)});
    var below, first, firstPaths := used, [], [];
    if !KindOf(kid).Knob? {
      below := EmitClass(kid, root, init, None, used).value;
      first := ClassShape(kid, root, init, None, used);
      firstPaths := ClassPaths(kid, None);
      AddsThen(out, used, below, [], first, [], firstPaths, root, {EngineName(m)}, {});
      assert [] + first == first && [] + firstPaths == firstPaths;
    }
    var (rest, tail) := EmitKids(t, items[1..], root, init, below, attrs + {AttrName(kid.seg)}).value;
    var others := KidsShape(t, items[1..], root, init, below, attrs + {AttrName(kid.seg)});
    assert {EngineName(m)} + {} == {EngineName(m)};
    AddsThen(out, below, rest, first, others, firstPaths, KidPaths(t, items[1..]), root, {EngineName(m)},
      MembersUse(tail));
    assert ([m] + tail)[1..] == tail;
    added := first + others;
  }

  lemma {:induction false} AddsNothing(out: Out, root: Path, extra: set<string>)
    ensures Adds(out, out.(used := out.used + extra), [], [], root, extra)
  {
  }

  // ---- references and attributes of every block -----------------------------------------

  function NamesOf(blocks: seq<ClassDef>): set<string> {
    set b <- blocks :: b.name
  }

  function AttrsOf(ms: seq<Member>): set<string> {
    set m <- ms :: AttrOf(m)
  }

  /** The attributes of a class are distinct valid names: no keyword, no engine name, nothing assigned twice. */
  ghost predicate UsableAttrs(ms: seq<Member>) {
    && (forall i, j :: 0 <= i < j < |ms| ==> AttrOf(ms[i]) != AttrOf(ms[j]))
    && forall m <- ms :: m.SelfValue? || (Usable(m.attr) && Literal(m.subid))
  }

  predicate Usable(attr: string) {
    attr !in KEYWORDS && attr !in RESERVED && attr != [] && !Digit(attr[0]) && forall c <- attr :: Word(c)
  }

  /** The classes its members refer to are among names. */
  ghost predicate RefersTo(ms: seq<Member>, names: set<string>) {
    forall m <- ms :: ClassRef(m).Some? ==> ClassRef(m).value in names
  }

  /** From block n on, every block refers to earlier blocks and, if that is asked for, has usable attributes. */
  ghost predicate BlocksOk(blocks: seq<ClassDef>, n: nat, usable: bool) {
    forall i :: n <= i < |blocks| ==>
      RefersTo(blocks[i].members, NamesOf(blocks[..i])) && (usable ==> UsableAttrs(blocks[i].members))
  }

  /** Segments as they can stand in a string. */
  ghost predicate Literals(t: Tree) {
    t.seg != [] && Literal(t.seg) && forall i :: 0 <= i < |t.kids| ==> Literals(t.kids[i])
  }

  lemma {:induction false} BlocksThen(a: seq<ClassDef>, b: seq<ClassDef>, n: nat, usable: bool)
    requires BlocksOk(a, n, usable) && n <= |a| && a <= b && BlocksOk(b, |a|, usable)
    ensures BlocksOk(b, n, usable)
  {
    hide RefersTo, UsableAttrs;
    forall i | n <= i < |b|
      ensures RefersTo(b[i].members, NamesOf(b[..i])) && (usable ==> UsableAttrs(b[i].members))
    {
      if i < |a| { assert b[i] == a[i] && b[..i] == a[..i]; }
    }
  }

  lemma {:induction false} BlocksSnoc(a: seq<ClassDef>, def: ClassDef, n: nat, usable: bool)
    requires BlocksOk(a, n, usable) && n <= |a| && RefersTo(def.members, NamesOf(a))
      && (usable ==> UsableAttrs(def.members))
    ensures BlocksOk(a + [def], n, usable)
  {
    hide RefersTo, UsableAttrs;
    var b := a + [def];
    assert b[..|a|] == a;
    assert BlocksOk(b, |a|, usable);
    BlocksThen(a, b, n, usable);
  }

  lemma {:induction false} ClassBlocks(t: Tree, root: Path, init: Init, listed: Option<seq<string>>, out: Out,
                                       usable: bool)
    requires EmitClass(t, root, init, listed, out).Ok? && (usable ==> Literals(t))
    ensures var out' := EmitClass(t, root, init, listed, out).value;
      out.blocks <= out'.blocks && BlocksOk(out'.blocks, |out.blocks|, usable)
        && ClassName(t.path, root) in NamesOf(out'.blocks)
    decreases t, 1, 0
  {
    hide ClassName, Oid, EmitKids, BlocksOk, RefersTo, UsableAttrs, Literals;
    var cname := ClassName(t.path, root);
    var self, items := SelfMembers(t.entry).value, Items(t, listed).value;
    var used := if self == [] then out.used else out.used + {"SelfKnob"};
    var named := Out(out.blocks, used, out.cnames[cname := Oid(t.path)]);
    var (below, members) := EmitKids(t, items, root, init, named, {}).value;
    KidsBlocks(t, items, root, init, named, {}, usable);
    SelfFirst(t, self, members, NamesOf(below.blocks), usable);
    var def := ClassDef(cname, self + members, if t.path == root then Some(init) else None);
    BlocksSnoc(below.blocks, def, |out.blocks|, usable);
    assert def in below.blocks + [def];
  }

  lemma {:induction false} SelfFirst(t: Tree, self: seq<Member>, members: seq<Member>, names: set<string>, usable: bool)
    requires SelfMembers(t.entry) == Ok(self) && RefersTo(members, names) && (usable ==> UsableAttrs(members))
    requires forall m <- members :: !m.SelfValue?
    ensures RefersTo(self + members, names) && (usable ==> UsableAttrs(self + members))
  {
    assert RESERVED[3] == "value";
    if self == [] { assert self + members == members; }
  }

  lemma {:induction false} KidsBlocks(t: Tree, items: seq<Tree>, root: Path, init: Init, out: Out, attrs: set<string>,
                                      usable: bool)
    requires (forall x <- items :: x in t.kids) && (usable ==> Literals(t))
    requires EmitKids(t, items, root, init, out, attrs).Ok?
    ensures var (rest, members) := EmitKids(t, items, root, init, out, attrs).value;
      && out.blocks <= rest.blocks && BlocksOk(rest.blocks, |out.blocks|, usable)
      && RefersTo(members, NamesOf(rest.blocks)) && (usable ==> UsableAttrs(members))
      && (forall m <- members :: !m.SelfValue? && AttrOf(m) !in attrs)
    decreases t, 0, |items|
  {
    hide EmitClass, AttrName, KindOf, ClassName, Oid, BlocksOk, RefersTo, UsableAttrs;
    if items == [] {
      NoBlocks(out.blocks, usable);
      return;
    }
    KidIsSmaller(t, items, 0);
    var kid := items[0];
    var attr, m := AttrName(kid.seg), MemberFor(kid, root).value;
    var used := out.(used := out.used + {EngineName(m)});
    var below := if KindOf(kid).Knob? then used else EmitClass(kid, root, init, None, used).value;
    assert kid in items && kid in t.kids;
    if usable { KidLiterals(t, kid); }
    NoBlocks(out.blocks, usable);
    if !KindOf(kid).Knob? {
      ClassBlocks(kid, root, init, None, used, usable);
    }
    KidsBlocks(t, items[1..], root, init, below, attrs + {attr}, usable);
    var (rest, tail) := EmitKids(t, items[1..], root, init, below, attrs + {attr}).value;
    BlocksThen(below.blocks, rest.blocks, |out.blocks|, usable);
    MemberIs(kid, root);
    if usable { MemberIsUsable(kid, root); }
    NamesGrow(below.blocks, rest.blocks);
    OneMoreMember(m, tail, NamesOf(rest.blocks), usable);
  }

  lemma {:induction false} KidLiterals(t: Tree, kid: Tree)
    requires Literals(t) && kid in t.kids
    ensures Literals(kid) && kid.seg != [] && Literal(kid.seg)
  {
  }

  lemma {:induction false} NoBlocks(blocks: seq<ClassDef>, usable: bool)
    ensures BlocksOk(blocks, |blocks|, usable) && RefersTo([], NamesOf(blocks)) && UsableAttrs([])
  {
  }

  lemma {:induction false} NamesGrow(a: seq<ClassDef>, b: seq<ClassDef>)
    requires a <= b
    ensures NamesOf(a) <= NamesOf(b)
  {
    forall x | x in a
      ensures x in b
    {
      var i :| 0 <= i < |a| && a[i] == x;
      assert b[i] == x;
    }
  }

  lemma {:induction false} MemberIs(kid: Tree, root: Path)
    requires MemberFor(kid, root).Ok?
    ensures var m := MemberFor(kid, root).value;
      && !m.SelfValue? && m.attr == AttrName(kid.seg)
      && ClassRef(m) == if KindOf(kid).Knob? then None else Some(ClassName(kid.path, root))
  {
    hide ClassName, AttrName;
  }

  lemma {:induction false} MemberIsUsable(kid: Tree, root: Path)
    requires MemberFor(kid, root).Ok? && kid.seg != [] && Literal(kid.seg)
    ensures var m := MemberFor(kid, root).value;
      !m.SelfValue? && Usable(m.attr) && Literal(m.subid)
  {
    hide ClassName;
    AttrNameIsUsable(kid.seg);
    var a := AttrName(kid.seg);
    assert forall c <- a :: Word(c);
    hide AttrName;
  }

  lemma {:induction false} OneMoreMember(m: Member, tail: seq<Member>, names: set<string>, usable: bool)
    requires RefersTo(tail, names) && (usable ==> UsableAttrs(tail)) && (forall x <- tail :: AttrOf(x) != AttrOf(m))
    requires !m.SelfValue? && (usable ==> Usable(m.attr) && Literal(m.subid))
      && (ClassRef(m).Some? ==> ClassRef(m).value in names)
    ensures RefersTo([m] + tail, names) && (usable ==> UsableAttrs([m] + tail))
  {
    hide Usable;
    var all := [m] + tail;
    forall i, j | usable && 0 <= i < j < |all|
      ensures AttrOf(all[i]) != AttrOf(all[j])
    {
      assert all[j] == tail[j - 1] && tail[j - 1] in tail;
    }
  }

  /** The module has exactly one class for every emitted node that is no knob, children before parents, under pairwise
      distinct names each recorded with its node's OID; every class a member refers to is defined in an earlier block;
      and exactly the engine names that the bodies call are imported. */
  lemma {:induction false} ModuleShape(t: Tree, init: Init, listed: Option<seq<string>>)
    requires EmitModule(t, init, listed).Ok?
    ensures var out, paths := EmitModule(t, init, listed).value, ClassPaths(t, listed);
      && |out.blocks| == |paths|
      && (forall i :: 0 <= i < |paths| ==>
            out.blocks[i].name == ClassName(paths[i], t.path)
            && out.blocks[i].name in out.cnames && out.cnames[out.blocks[i].name] == Oid(paths[i]))
      && (forall i, j :: 0 <= i < j < |paths| ==> out.blocks[i].name != out.blocks[j].name)
      && (forall i, m :: 0 <= i < |paths| && m in out.blocks[i].members && ClassRef(m).Some? ==>
            exists j :: 0 <= j < i && out.blocks[j].name == ClassRef(m).value)
      && out.used == {"CfgObject"} + UsedBy(out.blocks)
  {
    hide ClassName, Oid, EmitClass, ClassPaths, UsedBy, UsableAttrs;
    var added := ClassShape(t, t.path, init, listed, EMPTY_OUT);
    assert [] + added == added;
    ClassBlocks(t, t.path, init, listed, EMPTY_OUT, false);
    var blocks := EmitModule(t, init, listed).value.blocks;
    forall i, m | 0 <= i < |blocks| && m in blocks[i].members && ClassRef(m).Some?
      ensures exists j :: 0 <= j < i && blocks[j].name == ClassRef(m).value
    {
      var b :| b in blocks[..i] && b.name == ClassRef(m).value;
    }
  }

  /** In every emitted class the attributes are distinct, avoid keywords and engine names, and are identifiers. */
  lemma {:induction false} AttrsAreUsable(t: Tree, init: Init, listed: Option<seq<string>>)
    requires EmitModule(t, init, listed).Ok? && Literals(t)
    ensures forall b <- EmitModule(t, init, listed).value.blocks :: UsableAttrs(b.members)
  {
    hide UsableAttrs, RefersTo, EmitClass, ClassName;
    ClassBlocks(t, t.path, init, listed, EMPTY_OUT, true);
  }
}
