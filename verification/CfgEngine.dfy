/**
 The meaning of an emitted module: running its class statements (Python's name resolution), and following members
 through the engine's descriptors (cfg/_engine.py) to instance OIDs.
 */
module CfgEngine {
  import opened Common
  import opened CfgNames
  import opened CfgEmit

  // ---- running the module ------------------------------------------------------------

  /** What a name stands for; a Thing is an object that is no class and cannot be called. */
  datatype Value = EngineClass(name: string) | UserClass(cls: ClassVal) | Thing

  /** A class with all its attributes, inherited ones included. */
  datatype ClassVal = ClassVal(name: string, slots: map<string, Desc>, init: Option<Init>)

  datatype Obj = Obj(cls: ClassVal, oid: string)

  /** What an attribute holds: a descriptor of the engine, or an object that a generated class made. */
  datatype Desc =
    | SelfDesc(cvt: string, sync: bool)
    | KnobDesc(knob: string, subid: string, cvt: string, readOnly: bool, sync: bool)
    | SubDesc(subid: string, cls: Value)
    | CollDesc(subid: string, cls: Value, readOnly: bool)
    | ObjectAttr(o: Obj)

  type Env = map<string, Value>

  /** A name used in a class body: what the body has assigned so far hides the module's names. */
  function Global(n: string, env: Env, locals: set<string>): Option<Value> {
    if n in locals then Some(Thing) else if n in env then Some(env[n]) else None
  }

  /** The call of a knob class gets the OID segment and nothing else. */
  predicate Bare(m: Member) {
    m.KnobMember? && m.knob != "IntKnob" && !m.readOnly && !m.sync
  }

  /** One assignment of a class body; None when it raises. SubObject and Collection store whatever they are given, and a
      generated class takes the place of a knob class if it can be called with an OID. An attribute that starts with two
      underscores, to which Python gives another name or a meaning of its own, counts as raising. */
  function RunMember(m: Member, env: Env, locals: set<string>): Option<Desc> {
    if Dunder(AttrOf(m)) then None else
    match Global(EngineName(m), env, locals)
    case Some(EngineClass(_)) =>
      (match m
       case SelfValue(cvt, sync) => Some(SelfDesc(cvt, sync))
       case KnobMember(attr, knob, subid, cvt, ro, sync) => Some(KnobDesc(knob, subid, cvt, ro, sync))
       case SubMember(attr, subid, cls) =>
         (match Global(cls, env, locals) case Some(v) => Some(SubDesc(subid, v)) case None => None)
       case CollMember(attr, subid, cls, ro) =>
         (match Global(cls, env, locals) case Some(v) => Some(CollDesc(subid, v, ro)) case None => None))
    case Some(UserClass(c)) =>
      if Bare(m) && c.init.None? then Some(ObjectAttr(Obj(c, m.subid))) else None
    case _ => None
  }

  /** What a class body assigns. */
  function RunBody(ms: seq<Member>, env: Env, locals: set<string>): Option<map<string, Desc>> {
    if ms == [] then Some(map[])
    else match RunMember(ms[0], env, locals)
      case None => None
      case Some(d) =>
        match RunBody(ms[1..], env, locals + {AttrOf(ms[0])})
        case None => None
        case Some(rest) => Some(map[AttrOf(ms[0]) := d] + rest)
  }

  /** What CfgObject stands for when a class statement names it as base. */
  function Base(env: Env): Option<ClassVal> {
    match Global("CfgObject", env, {})
    case Some(EngineClass(n)) => Some(ClassVal(n, map[], None))
    case Some(UserClass(c)) => Some(c)
    case _ => None
  }

  /** Class statements in order; None when one of them raises. */
  function Exec(blocks: seq<ClassDef>, env: Env): Option<Env> {
    if blocks == [] then Some(env) else
    match Exec(blocks[..|blocks| - 1], env)
    case None => None
    case Some(before) =>
      var b := blocks[|blocks| - 1];
      match (Base(before), RunBody(b.members, before, {}))
      case (Some(base), Some(own)) =>
        var init := if b.init.Some? then b.init else base.init;
        Some(before[b.name := UserClass(ClassVal(b.name, base.slots + own, init))])
      case _ => None
  }

  /** from pyte.cfg import (...) */
  function Imports(used: set<string>): Env {
    map n | n in used :: EngineClass(n)
  }

  predicate Distinct(xs: seq<string>) {
    forall i, j :: 0 <= i < j < |xs| ==> xs[i] != xs[j]
  }

  predicate Signature(params: seq<string>) {
    Distinct(["self"] + params) && forall p <- params :: Identifier(p) && !Dunder(p)
  }

  /** The source of a class is Python: names are identifiers, strings hold what they spell. */
  predicate Parses(b: ClassDef) {
    && Identifier(b.name)
    && (forall m <- b.members :: Identifier(AttrOf(m)) && (m.SelfValue? || Literal(m.subid)))
    && (b.init.Some? ==> Signature(b.init.value.params) && forall p <- b.init.value.template ::
      p.Lit? ==> Literal(p.text))
  }

  /** Importing a module: it is parsed as a whole, then its imports and class statements run. */
  function Import(out: Out): Option<Env> {
    if forall b <- out.blocks :: Parses(b) then Exec(out.blocks, Imports(out.used)) else None
  }

  // ---- following members -------------------------------------------------------------

  /** What an attribute chain ends at: an object, the instance a knob reads and writes, or a TypeError because the class
      of a member cannot be called. That there is no such attribute is no target. */
  datatype Target = Inst(o: Obj) | Leaf(oid: string) | NotAClass

  /** One step: an attribute, and the key used on it when it is a collection. */
  datatype Step = Step(attr: string, key: string)

  /** _Knob._oid, SubObject.__get__ and BoundCollection._child_oid, step by step. */
  function Access(o: Obj, steps: seq<Step>): Option<Target>
    decreases |steps|
  {
    if steps == [] then Some(Inst(o))
    else if steps[0].attr !in o.cls.slots then None
    else match o.cls.slots[steps[0].attr]
      case SelfDesc(_, _) => if |steps| == 1 then Some(Leaf(o.oid)) else None
      case KnobDesc(_, subid, _, _, _) => if |steps| == 1 then Some(Leaf(o.oid + "/" + subid + ":")) else None
      case SubDesc(subid, cls) =>
        (match Call(cls, o.oid + "/" + subid + ":") case Some(x) => Access(x, steps[1..]) case None => Some(NotAClass))
      case CollDesc(subid, cls, _) =>
        (match Call(cls, o.oid + "/" + subid + ":" + steps[0].key)
         case Some(x) => Access(x, steps[1..])
         case None => Some(NotAClass))
      case ObjectAttr(x) => Access(x, steps[1..])
  }

  /** Calling the class of a member with an OID. */
  function Call(v: Value, oid: string): Option<Obj> {
    match v
    case UserClass(c) => if c.init.None? then Some(Obj(c, oid)) else Construct(c, [oid])
    case _ => None
  }

  /** The instance whose value a target gives: the knob's own, or an object's through its `value`. */
  function ValueOid(t: Target): Option<string> {
    match t
    case Leaf(oid) => Some(oid)
    case Inst(o) => if "value" in o.cls.slots && o.cls.slots["value"].SelfDesc? then Some(o.oid) else None
    case NotAClass => None
  }

  /** An f-string over the constructor's arguments. */
  function Format(template: seq<Part>, args: map<string, string>): string {
    if template == [] then ""
    else (match template[0]
          case Lit(text) => text
          case Hole(p) => if p in args then args[p] else "") + Format(template[1..], args)
  }

  function Bind(params: seq<string>, args: seq<string>): map<string, string>
    requires |params| == |args|
  {
    if params == [] then map[] else Bind(params[1..], args[1..])[params[0] := args[0]]
  }

  /** Calling the root class, whose constructor calls super(). */
  function Construct(cls: ClassVal, args: seq<string>): Option<Obj> {
    if cls.init.None? || |args| != |cls.init.value.params| || HidesSuper(cls.init.value.params) then None
    else Some(Obj(cls, Format(cls.init.value.template, Bind(cls.init.value.params, args))))
  }

  /** A parameter that the constructor would call in the place of super. */
  predicate HidesSuper(params: seq<string>) {
    "super" in params
  }

  // ---- erasing instance names (cfg.add) ------------------------------------------------

  /** re.sub(":[^/]*", "", oid); `inName` while inside an instance name. */
  function EraseFrom(s: string, inName: bool): string {
    if s == [] then []
    else if s[0] == '/' then ['/'] + EraseFrom(s[1..], false)
    else if inName || s[0] == ':' then EraseFrom(s[1..], true)
    else [s[0]] + EraseFrom(s[1..], false)
  }

  function Erase(oid: string): string {
    EraseFrom(oid, false)
  }

  lemma {:induction false} EraseConcat(a: string, b: string, inName: bool)
    requires b != [] && b[0] == '/'
    ensures EraseFrom(a + b, inName) == EraseFrom(a, inName) + EraseFrom(b, false)
  {
    if a == [] {
      assert a + b == b;
    } else {
      assert (a + b)[1..] == a[1..] + b;
      EraseConcat(a[1..], b, a[0] != '/' && (inName || a[0] == ':'));
    }
  }

  lemma {:induction false} EraseName(name: string)
    requires '/' !in name
    ensures EraseFrom(name, true) == []
  {
    if name != [] {
      EraseName(name[1..]);
    }
  }

  lemma {:induction false} EraseSeg(seg: string, name: string)
    requires '/' !in seg && ':' !in seg && '/' !in name
    ensures EraseFrom(seg + ":" + name, false) == seg
  {
    var s := seg + ":" + name;
    if seg == [] {
      assert s == [':'] + name;
      EraseName(name);
    } else {
      assert s[1..] == seg[1..] + ":" + name;
      EraseSeg(seg[1..], name);
    }
  }

  /** Composing a child OID and erasing is erasing the parent and appending the segment. */
  lemma {:induction false} EraseChild(oid: string, seg: string, name: string)
    requires '/' !in seg && ':' !in seg && '/' !in name
    ensures Erase(oid + "/" + seg + ":" + name) == Erase(oid) + "/" + seg
  {
    var tail := "/" + seg + ":" + name;
    assert oid + "/" + seg + ":" + name == oid + tail;
    EraseConcat(oid, tail, false);
    assert tail[1..] == seg + ":" + name;
    EraseSeg(seg, name);
    assert EraseFrom(tail, false) == ['/'] + seg;
    assert Erase(oid) + (['/'] + seg) == Erase(oid) + "/" + seg;
  }
}
