/** The generator is a correct compiler, from register entries to instance OIDs, exactly while its names are right. */
module CfgTheorems {
  import opened Common
  import opened CfgNames
  import opened CfgTree
  import opened CfgEmit
  import opened CfgEngine
  import opened CfgShape
  import opened CfgCorrect
  import opened CfgAccess
  import opened CfgImport
  import opened CfgGenerate

  // ---- correctness of the compiler ---------------------------------------------------------------

  lemma {:induction false} TemplateSnoc(levels: seq<(string, Option<string>)>, l: (string, Option<string>))
    ensures Template(levels + [l]) == Template(levels) + LevelParts(l.0, l.1)
  {
    if levels == [] {
      assert [l][1..] == [];
      assert [] + [l] == [l];
    } else {
      assert (levels + [l])[1..] == levels[1..] + [l];
      TemplateSnoc(levels[1..], l);
      assert LevelParts(levels[0].0, levels[0].1) + (Template(levels[1..]) + LevelParts(l.0, l.1))
          == Template(levels) + LevelParts(l.0, l.1);
    }
  }

  lemma {:induction false} FormatConcat(a: seq<Part>, b: seq<Part>, args: map<string, string>)
    ensures Format(a + b, args) == Format(a, args) + Format(b, args)
  {
    if a == [] {
      assert a + b == b;
    } else {
      assert (a + b)[1..] == a[1..] + b;
      FormatConcat(a[1..], b, args);
    }
  }

  /** The instance name of a level, given the constructor's arguments. */
  function LevelName(key: Option<string>, args: map<string, string>): string {
    match key
    case None => ""
    case Some(k) => if k in args then args[k] else ""
  }

  lemma {:induction false} PartsFormat(seg: string, key: Option<string>, args: map<string, string>)
    ensures Format(LevelParts(seg, key), args) == "/" + seg + ":" + LevelName(key, args)
  {
    var parts, text := LevelParts(seg, key), "/" + seg + ":";
    assert Format([], args) == "";
    if key.Some? {
      assert parts[1..] == [Hole(key.value)] && [Hole(key.value)][1..] == [];
      assert Format(parts[1..], args) == LevelName(key, args) + "";
      assert text + (LevelName(key, args) + "") == text + LevelName(key, args);
    } else {
      assert parts[1..] == [];
      assert text + "" == text;
    }
  }

  /** The OID the root's constructor composes erases to the root's CM OID, for all arguments without "/". */
  lemma {:induction false} RootOidErases(es: seq<Entry>, p: Path, args: map<string, string>)
    requires PlainPath(p) && forall k <- args :: '/' !in args[k]
    ensures Erase(Format(Template(Levels(es, p)), args)) == Oid(p)
  {
    hide LevelKey, Format, LevelParts, Template, Erase;
    if p.Sub? {
      var key := LevelKey(p.seg, Registered(es, p), Order(es, p) == []);
      var before, name := Format(Template(Levels(es, p.up)), args), LevelName(key, args);
      RootOidErases(es, p.up, args);
      TemplateSnoc(Levels(es, p.up), (p.seg, key));
      FormatConcat(Template(Levels(es, p.up)), LevelParts(p.seg, key), args);
      PartsFormat(p.seg, key, args);
      assert before + ("/" + p.seg + ":" + name) == before + "/" + p.seg + ":" + name;
      EraseChild(before, p.seg, name);
    } else {
      NoLevels(args);
    }
  }

  lemma {:induction false} NoLevels(args: map<string, string>)
    ensures Erase(Format(Template([]), args)) == ""
  {
  }

  ghost predicate PlainPath(p: Path) {
    p.Sub? ==> Segment(p.seg) && PlainPath(p.up)
  }

  lemma {:induction false} KnownIsPlain(es: seq<Entry>, p: Path)
    requires Plain(es) && Known(es, p)
    ensures PlainPath(p)
    decreases p
  {
    var e :| e in es && Under(p, PathOfEntry(e));
    SegsOfPlain(e.oid);
    SegmentOnPath(Segs(e.oid), p.up, p.seg);
    if p.up.Sub? {
      KnownAbove(es, p.up, p.seg);
      KnownIsPlain(es, p.up);
    }
  }

  lemma {:induction false} BoundValues(params: seq<string>, args: seq<string>)
    requires |params| == |args| && forall a <- args :: '/' !in a
    ensures forall k <- Bind(params, args) :: '/' !in Bind(params, args)[k]
  {
    if params != [] {
      BoundValues(params[1..], args[1..]);
      assert args[0] in args;
    }
  }

  /** What a user of a generated module does: import it, construct the root object, follow attributes. */
  function Use(out: Out, rootClass: string, args: seq<string>, steps: seq<Step>): Option<CfgEngine.Target> {
    match Import(out)
    case None => None
    case Some(env) =>
      if rootClass !in env || !env[rootClass].UserClass? then None
      else match Construct(env[rootClass].cls, args)
        case None => None
        case Some(o) => Access(o, steps)
  }

  lemma {:induction false} ProperIsLiteral(t: Tree)
    requires Proper(t)
    ensures Literals(t)
  {
    forall i | 0 <= i < |t.kids|
      ensures Literals(t.kids[i])
    {
      ProperIsLiteral(t.kids[i]);
    }
  }

  lemma {:induction false} LevelsAreLiteral(es: seq<Entry>, p: Path)
    requires PlainPath(p)
    ensures forall x <- Template(Levels(es, p)) :: x.Lit? ==> Literal(x.text)
  {
    hide LevelKey, Template;
    if p.Sub? {
      LevelsAreLiteral(es, p.up);
      var key := LevelKey(p.seg, Registered(es, p), Order(es, p) == []);
      TemplateSnoc(Levels(es, p.up), (p.seg, key));
      LevelIsLiteral(p.seg, key);
    } else {
      assert Template([]) == [] by { NoTemplate(); }
    }
  }

  lemma {:induction false} LevelIsLiteral(seg: string, key: Option<string>)
    requires Literal(seg)
    ensures forall x <- LevelParts(seg, key) :: x.Lit? ==> Literal(x.text)
  {
    var text := "/" + seg + ":";
    assert Literal("/") && Literal(":");
    assert Literal(text);
  }

  lemma {:induction false} NoTemplate()
    ensures Template([]) == []
  {
  }

  /** Only the class of the root, which comes last, has a constructor. */
  lemma {:induction false} InitOnlyAtRoot(t: Tree, init: Init, listed: Option<seq<string>>)
    requires EmitModule(t, init, listed).Ok? && Proper(t)
    ensures var blocks := EmitModule(t, init, listed).value.blocks;
      && |blocks| > 0 && blocks[|blocks| - 1].init == Some(init)
      && blocks[|blocks| - 1].name == ClassName(t.path, t.path) && NoInits(blocks[..|blocks| - 1])
  {
    hide ClassName, Oid, EmitKids, Depth, Proper;
    var self, items := SelfMembers(t.entry).value, Items(t, listed).value;
    var named := Out([], if self == [] then {"CfgObject"} else {"CfgObject", "SelfKnob"},
                     map[ClassName(t.path, t.path) := Oid(t.path)]);
    assert EMPTY_OUT.used + {"SelfKnob"} == {"CfgObject", "SelfKnob"};
    KidsNoInit(t, items, t.path, init, named, {});
    var below := EmitKids(t, items, t.path, init, named, {}).value.0;
    var blocks := EmitModule(t, init, listed).value.blocks;
    assert blocks[..|blocks| - 1] == below.blocks;
  }

  lemma {:induction false} ClassNoInit(t: Tree, root: Path, init: Init, out: Out)
    requires EmitClass(t, root, init, None, out).Ok? && NoInits(out.blocks)
    requires Proper(t) && Depth(t.path) > Depth(root)
    ensures NoInits(EmitClass(t, root, init, None, out).value.blocks)
    decreases t, 1, 0
  {
    hide ClassName, Oid, EmitKids, Proper;
    var self := SelfMembers(t.entry).value;
    var used := if self == [] then out.used else out.used + {"SelfKnob"};
    KidsNoInit(t, t.kids, root, init, Out(out.blocks, used, out.cnames[ClassName(t.path, root) := Oid(t.path)]), {});
  }

  lemma {:induction false} KidsNoInit(t: Tree, items: seq<Tree>, root: Path, init: Init, out: Out, attrs: set<string>)
    requires (forall x <- items :: x in t.kids) && EmitKids(t, items, root, init, out, attrs).Ok?
    requires NoInits(out.blocks) && Proper(t) && Depth(t.path) >= Depth(root)
    ensures NoInits(EmitKids(t, items, root, init, out, attrs).value.0.blocks)
    decreases t, 0, |items|
  {
    hide EmitClass, AttrName, KindOf, MemberFor;
    if items != [] {
      KidIsSmaller(t, items, 0);
      var kid := items[0];
      assert kid in t.kids && Proper(kid) && kid.path == Sub(t.path, kid.seg);
      var used := out.(used := out.used + {EngineName(MemberFor(kid, root).value)});
      if !KindOf(kid).Knob? { ClassNoInit(kid, root, init, used); }
      var below := if KindOf(kid).Knob? then used else EmitClass(kid, root, init, None, used).value;
      KidsNoInit(t, items[1..], root, init, below, attrs + {AttrName(kid.seg)});
    }
  }

  /** A generated module can be imported if and only if its class names and the parameters of its root class are
      identifiers, and no class body calls what an earlier class or attribute left in the place of an engine class, but
      for a generated class that is called with an OID alone. */
  lemma {:induction false} ModuleRuns(es: seq<Entry>, p: Path, listed: Option<seq<string>>)
    requires Plain(es) && Known(es, p) && EmitModule(TreeOf(es, p), InitSpec(es, p), listed).Ok?
    ensures var out := EmitModule(TreeOf(es, p), InitSpec(es, p), listed).value;
      Import(out).Some? <==> Loads(out.blocks)
  {
    hide EmitModule, Loads, Import, Known, Proper, Literals, Template, Levels, BlocksOk, UsableAttrs, UsedBy, Subtrees;
    var t, init := TreeOf(es, p), InitSpec(es, p);
    TreeIsProper(es, p);
    ProperIsLiteral(t);
    KnownIsPlain(es, p);
    LevelsAreLiteral(es, p);
    ModuleShape(t, init, listed);
    ModuleBlocks(t, init, listed);
    InitsOf(t, init, listed);
    ImportsExactly(EmitModule(t, init, listed).value);
  }

  lemma {:induction false} InitsOf(t: Tree, init: Init, listed: Option<seq<string>>)
    requires EmitModule(t, init, listed).Ok? && Proper(t)
    ensures var blocks := EmitModule(t, init, listed).value.blocks;
      && (forall i :: 0 <= i < |blocks| - 1 ==> blocks[i].init.None?)
      && (forall b <- blocks :: b.init.Some? ==> b.init.value == init)
  {
    hide EmitModule, Proper, ClassName;
    InitOnlyAtRoot(t, init, listed);
    var blocks := EmitModule(t, init, listed).value.blocks;
    forall i | 0 <= i < |blocks| - 1
      ensures blocks[i].init.None?
    {
      assert blocks[..|blocks| - 1][i] in blocks[..|blocks| - 1];
    }
  }

  lemma {:induction false} ModuleBlocks(t: Tree, init: Init, listed: Option<seq<string>>)
    requires EmitModule(t, init, listed).Ok? && Literals(t)
    ensures BlocksOk(EmitModule(t, init, listed).value.blocks, 0, true)
  {
    hide EmitClass;
    ClassBlocks(t, t.path, init, listed, EMPTY_OUT, true);
  }

  /** The classes that must have identifiers for names are those of the emitted nodes; a name is one unless it is empty,
      starts with a digit or is that of a constant. */
  lemma {:induction false} RightNamesOfClasses(es: seq<Entry>, p: Path, listed: Option<seq<string>>)
    requires Plain(es) && Known(es, p) && EmitModule(TreeOf(es, p), InitSpec(es, p), listed).Ok?
    ensures var blocks := EmitModule(TreeOf(es, p), InitSpec(es, p), listed).value.blocks;
      (forall b <- blocks :: Identifier(b.name)) <==>
      forall q <- ClassPaths(TreeOf(es, p), listed) :: var name := ClassName(q, p);
        name != "" && !Digit(name[0]) && name !in ["False", "None", "True"]
  {
    hide EmitModule, ClassName, ClassPaths, Known, Proper, Literals, UsedBy, Subtrees, Identifier;
    var t := TreeOf(es, p);
    TreeIsProper(es, p);
    ProperIsLiteral(t);
    ModuleShape(t, InitSpec(es, p), listed);
    var blocks, paths := EmitModule(t, InitSpec(es, p), listed).value.blocks, ClassPaths(t, listed);
    forall i | 0 <= i < |paths|
      ensures blocks[i] in blocks && paths[i] in paths && blocks[i].name == ClassName(paths[i], p)
      ensures Identifier(blocks[i].name) <==>
              blocks[i].name != "" && !Digit(blocks[i].name[0]) && blocks[i].name !in ["False", "None", "True"]
    {
      ClassNameIsIdentifier(paths[i], p);
    }
  }

  /** The root class of an imported module: it has the constructor, and is faithful exactly if all blocks are right. */
  lemma {:induction false} RootIsFaithful(t: Tree, init: Init, listed: Option<seq<string>>, oid: string)
    requires EmitModule(t, init, listed).Ok? && Proper(t) && Import(EmitModule(t, init, listed).value).Some?
    ensures var out, name := EmitModule(t, init, listed).value, ClassName(t.path, t.path);
      var env := Import(out).value;
      && name in env && env[name].UserClass? && env[name].cls.init == Some(init)
      && (Faithful(t, listed, env[name].cls, oid) <==> RightFrom(out.blocks, 0))
  {
    hide EmitClass, ClassName, Exec, Parses, Proper, Checked, Faithful, RightFrom;
    var out := EmitModule(t, init, listed).value;
    InitsOf(t, init, listed);
    InitOnlyAtRoot(t, init, listed);
    CheckedByEmission(t, init, listed);
    ClassIsFaithful(t, t.path, init, listed, EMPTY_OUT, out.used, oid);
    var n := |out.blocks| - 1;
    assert out.blocks == out.blocks[..n] + [out.blocks[n]];
    ExecSnoc(out.blocks[..n], out.blocks[n], Imports(out.used));
  }

  /** The generator is a correct compiler, exactly: using a generated module, every chain of attributes leads where the
      tree of the entries says it should, to that very instance OID, and no other attributes are there, if and only if
      the names that the module spells are right. */
  lemma {:induction false} GeneratedModuleMeansTheTree(es: seq<Entry>, p: Path, listed: Option<seq<string>>,
                                                       args: seq<string>)
    requires Plain(es) && Known(es, p) && EmitModule(TreeOf(es, p), InitSpec(es, p), listed).Ok?
    requires |args| == |InitSpec(es, p).params|
    ensures var out, oid := EmitModule(TreeOf(es, p), InitSpec(es, p), listed).value, RootOid(es, p, args);
      (forall steps :: Leads(Use(out, ClassName(p, p), args, steps), Follow(TreeOf(es, p), listed, oid, steps)))
      <==> NamesAreRight(out.blocks) && !HidesSuper(InitSpec(es, p).params)
  {
    hide EmitModule, Known, ClassName, Import, InitSpec, HidesSuper, NamesAreRight, Proper, Subtrees, Access, Loads,
      RightFrom, Format;
    var t, init, oid := TreeOf(es, p), InitSpec(es, p), RootOid(es, p, args);
    var out := EmitModule(t, init, listed).value;
    TreeIsProper(es, p);
    ModuleRuns(es, p, listed);
    NamesAre(out.blocks);
    if Import(out).Some? { RootIsFaithful(t, init, listed, oid); }
    if forall steps :: Leads(Use(out, ClassName(p, p), args, steps), Follow(t, listed, oid, steps)) {
      assert Leads(Use(out, ClassName(p, p), args, []), Follow(t, listed, oid, []));
      var cls := Import(out).value[ClassName(p, p)].cls;
      forall steps: seq<Step>
        ensures Leads(Access(Obj(cls, oid), steps), Follow(t, listed, oid, steps))
      {
        assert Leads(Use(out, ClassName(p, p), args, steps), Follow(t, listed, oid, steps));
      }
    }
  }

  /** The OID that the root's constructor composes. */
  function RootOid(es: seq<Entry>, p: Path, args: seq<string>): string
    requires |args| == |InitSpec(es, p).params|
  {
    Format(InitSpec(es, p).template, Bind(InitSpec(es, p).params, args))
  }

  lemma {:induction false} NamesAre(blocks: seq<ClassDef>)
    ensures NamesAreRight(blocks) <==> Loads(blocks) && RightFrom(blocks, 0)
  {
    hide Identifier, Signature, RightBlock, BodyLoads;
    if NamesAreRight(blocks) { RightLoads(blocks); }
  }

  /** In terms of CM OIDs: for every node in the emitted part of the tree and every choice of constructor arguments and
      instance names, using a module whose names are right leads to an instance whose OID, instance names erased, is
      exactly the node's CM OID; its value is readable there exactly when the node is registered with a value. */
  lemma {:induction false} GeneratedModuleIsCorrect(es: seq<Entry>, p: Path, listed: Option<seq<string>>,
                                                    args: seq<string>, segs: seq<string>, keys: seq<string>)
    requires Plain(es) && Known(es, p)
    requires EmitModule(TreeOf(es, p), InitSpec(es, p), listed).Ok?
    requires NamesAreRight(EmitModule(TreeOf(es, p), InitSpec(es, p), listed).value.blocks)
    requires !HidesSuper(InitSpec(es, p).params) && |args| == |InitSpec(es, p).params|
    requires |keys| == |segs| && Reach(TreeOf(es, p), listed, segs).Some?
    requires (forall a <- args :: '/' !in a) && (forall k <- keys :: '/' !in k)
    ensures var out := EmitModule(TreeOf(es, p), InitSpec(es, p), listed).value;
      var end, x := Use(out, ClassName(p, p), args, Steps(segs, keys)), Reach(TreeOf(es, p), listed, segs).value;
      && end.Some? && !end.value.NotAClass?
      && (if end.value.Inst? then Erase(end.value.o.oid) else Erase(end.value.oid)) == Oid(x.path)
      && (end.value.Leaf? <==> segs != [] && KindOf(x).Knob?)
      && (ValueOid(end.value).Some? <==> Carries(x))
      && (Carries(x) ==> Erase(ValueOid(end.value).value) == Oid(x.path))
  {
    hide EmitModule, Reach, InstanceOid, Steps, Follow, Use, Proper, Checked, KindOf, ClassName, Known, Subtrees,
      Levels, NamesAreRight, Format, Oid, Erase, HidesSuper, ValueOid;
    var t, init, oid := TreeOf(es, p), InitSpec(es, p), RootOid(es, p, args);
    var out, root, steps := EmitModule(t, init, listed).value, ClassName(p, p), Steps(segs, keys);
    var x := Reach(t, listed, segs).value;
    GeneratedModuleMeansTheTree(es, p, listed, args);
    CheckedByEmission(t, init, listed);
    TreeIsProper(es, p);
    KnownIsPlain(es, p);
    BoundValues(init.params, args);
    RootOidErases(es, p, Bind(init.params, args));
    InstanceErases(t, listed, segs, keys, oid);
    FollowReaches(t, listed, segs, keys, oid);
    var end := Use(out, root, args, steps);
    assert Leads(end, Follow(t, listed, oid, steps));
    if segs == [] || !KindOf(x).Knob? {
      FollowValue(t, listed, segs, keys, oid);
      var more := steps + [Step("value", "")];
      assert Leads(Use(out, root, args, more), Follow(t, listed, oid, more));
      UseValue(out, root, args, steps);
    } else {
      assert Carries(x) by { KnobCarries(x); }
      LeafValue(end.value);
    }
  }

  lemma {:induction false} KnobCarries(t: Tree)
    requires KindOf(t).Knob?
    ensures Carries(t)
  {
  }

  lemma {:induction false} LeafValue(end: CfgEngine.Target)
    requires end.Leaf?
    ensures ValueOid(end) == Some(end.oid)
  {
  }

  /** One more attribute after an object: its own value, if there is one. */
  lemma {:induction false} UseValue(out: Out, rootClass: string, args: seq<string>, steps: seq<Step>)
    requires Use(out, rootClass, args, steps).Some? && Use(out, rootClass, args, steps).value.Inst?
    ensures var end, more := Use(out, rootClass, args, steps).value,
                             Use(out, rootClass, args, steps + [Step("value", "")]);
      && (ValueOid(end).Some? ==> more == Some(Leaf(end.o.oid)) && ValueOid(end).value == end.o.oid)
      && (more == Some(Leaf(end.o.oid)) ==> ValueOid(end) == Some(end.o.oid))
  {
    hide Import, Construct;
    var root := Construct(Import(out).value[rootClass].cls, args).value;
    AccessConcat(root, steps, [Step("value", "")]);
    OwnValue(Access(root, steps).value.o);
  }

  lemma {:induction false} OwnValue(o: Obj)
    ensures Access(o, [Step("value", "")]) == Some(Leaf(o.oid)) <==> ValueOid(Inst(o)).Some?
  {
    var one := [Step("value", "")];
    assert one[1..] == [];
    if "value" in o.cls.slots && o.cls.slots["value"].KnobDesc? {
      assert |o.oid + "/" + o.cls.slots["value"].subid + ":"| > |o.oid|;
    }
  }

  lemma {:induction false} AccessConcat(o: Obj, a: seq<Step>, b: seq<Step>)
    requires Access(o, a).Some? && Access(o, a).value.Inst?
    ensures Access(o, a + b) == Access(Access(o, a).value.o, b)
    decreases |a|
  {
    hide Call;
    if a == [] {
      assert a + b == b;
    } else {
      assert (a + b)[1..] == a[1..] + b && (a + b)[0] == a[0];
      match o.cls.slots[a[0].attr]
      case SubDesc(subid, cls) => AccessConcat(Call(cls, o.oid + "/" + subid + ":").value, a[1..], b);
      case CollDesc(subid, cls, _) => AccessConcat(Call(cls, o.oid + "/" + subid + ":" + a[0].key).value, a[1..], b);
      case ObjectAttr(x) => AccessConcat(x, a[1..], b);
    }
  }

  lemma {:induction false} CheckedByEmission(t: Tree, init: Init, listed: Option<seq<string>>)
    requires EmitModule(t, init, listed).Ok?
    ensures Checked(t, listed)
  {
    hide EmitClass, Checked;
    EmittedIsChecked(t, t.path, init, listed, EMPTY_OUT);
  }

  /** The root object of a generated module can be made if and only if the module can be imported and no parameter hides
      what the constructor calls. */
  lemma {:induction false} RootObjectExactly(es: seq<Entry>, p: Path, listed: Option<seq<string>>, args: seq<string>)
    requires Plain(es) && Known(es, p) && EmitModule(TreeOf(es, p), InitSpec(es, p), listed).Ok?
    requires |args| == |InitSpec(es, p).params|
    ensures var out := EmitModule(TreeOf(es, p), InitSpec(es, p), listed).value;
      Use(out, ClassName(p, p), args, []).Some? <==> Loads(out.blocks) && !HidesSuper(InitSpec(es, p).params)
  {
    hide EmitModule, Import, ClassName, Known, Subtrees, Levels, Loads, Format, HidesSuper, Proper, Faithful, RightFrom;
    var t, init := TreeOf(es, p), InitSpec(es, p);
    TreeIsProper(es, p);
    ModuleRuns(es, p, listed);
    if Import(EmitModule(t, init, listed).value).Some? {
      RootIsFaithful(t, init, listed, RootOid(es, p, args));
    }
  }

  /** In every class generated from entries the attributes are distinct, avoid keywords and engine names, and are
      identifiers. */
  lemma {:induction false} GeneratedAttrsAreUsable(es: seq<Entry>, p: Path, listed: Option<seq<string>>)
    requires Plain(es) && Known(es, p) && EmitModule(TreeOf(es, p), InitSpec(es, p), listed).Ok?
    ensures forall b <- EmitModule(TreeOf(es, p), InitSpec(es, p), listed).value.blocks :: UsableAttrs(b.members)
  {
    hide EmitModule, UsableAttrs, Proper, Literals, Known, Subtrees;
    TreeIsProper(es, p);
    ProperIsLiteral(TreeOf(es, p));
    AttrsAreUsable(TreeOf(es, p), InitSpec(es, p), listed);
  }

  /** Below an emitted root everything is emitted, or with a list what is below the listed children. */
  predicate IsEmitted(p: Path, q: Path, listed: Option<seq<string>>) {
    q == p || listed.None? || (Below(p, q) != [] && Below(p, q)[0] in listed.value)
  }

  /** Every register entry with a value can be read through the generated module: there are steps from the root object
      that end at an instance of exactly that entry's OID, for all constructor arguments. */
  lemma {:induction false} EveryValueIsReached(es: seq<Entry>, p: Path, listed: Option<seq<string>>, args: seq<string>,
                                               q: Path)
    requires Plain(es) && Known(es, p) && Under(p, q) && Known(es, q)
    requires IsEmitted(p, q, listed)
    requires Registered(es, q).Some? && Registered(es, q).value.typ != "none"
    requires EmitModule(TreeOf(es, p), InitSpec(es, p), listed).Ok?
    requires NamesAreRight(EmitModule(TreeOf(es, p), InitSpec(es, p), listed).value.blocks)
    requires !HidesSuper(InitSpec(es, p).params) && |args| == |InitSpec(es, p).params| && forall a <- args :: '/' !in a
    ensures exists steps ::
      var end := Use(EmitModule(TreeOf(es, p), InitSpec(es, p), listed).value, ClassName(p, p), args, steps);
      end.Some? && ValueOid(end.value).Some? && Erase(ValueOid(end.value).value) == Registered(es, q).value.oid
  {
    hide EmitModule, Known, Use, ClassName, NamesAreRight, HidesSuper, InitSpec, Erase, Steps, Reach, ValueOid, Oid,
      AttrName;
    var segs := Below(p, q);
    var keys := seq(|segs|, _ => "");
    assert p.Sub? by { KnownIsSub(es, p); }
    EveryNodeIsReached(es, p, q);
    CheckedByEmission(TreeOf(es, p), InitSpec(es, p), listed);
    ReachesEmitted(es, p, q, listed);
    GeneratedModuleIsCorrect(es, p, listed, args, segs, keys);
    RegisteredIsLast(es, q);
    var end := Use(EmitModule(TreeOf(es, p), InitSpec(es, p), listed).value, ClassName(p, p), args, Steps(segs, keys));
    assert Carries(TreeOf(es, q)) && TreeOf(es, q).path == q by { TreeCarries(es, q); }
    assert end.Some? && ValueOid(end.value).Some? && Erase(ValueOid(end.value).value) == Registered(es, q).value.oid;
  }

  lemma {:induction false} KnownIsSub(es: seq<Entry>, p: Path)
    requires Known(es, p)
    ensures p.Sub?
  {
  }

  lemma {:induction false} TreeCarries(es: seq<Entry>, q: Path)
    ensures TreeOf(es, q).path == q && TreeOf(es, q).entry == Registered(es, q)
  {
  }

  /** With a list of members, what is below a listed child is reached as without. */
  lemma {:induction false} ReachesEmitted(es: seq<Entry>, p: Path, q: Path, listed: Option<seq<string>>)
    requires Under(p, q) && p.Sub? && Items(TreeOf(es, p), listed).Ok?
    requires Reach(TreeOf(es, p), None, Below(p, q)) == Some(TreeOf(es, q))
    requires IsEmitted(p, q, listed)
    ensures Reach(TreeOf(es, p), listed, Below(p, q)) == Some(TreeOf(es, q))
  {
    if q != p && listed.Some? {
      ReachListed(TreeOf(es, p), listed.value, Below(p, q));
    }
  }
}
