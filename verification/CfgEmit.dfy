/**
 The emitting half of cfg/_gen.py: classify, _init_spec, _emit_class and emit_module.

 An emitted module is kept as abstract syntax (ClassDef, Member, Init) instead of source text.  The functions here
 are the specification over a tree value; the Emitter class does the work on the node objects.
 */
module CfgEmit {
  import opened Common
  import opened CfgNames
  import opened CfgTree

  /** The tree below one node, as a value. */
  datatype Tree = Tree(seg: string, path: Path, entry: Option<Entry>, kids: seq<Tree>)

  datatype Kind = Knob | SubObject | Collection

  datatype GenError = ClassCollision | AttrCollision | NotAChild | UnknownType

  datatype Member =
    | SelfValue(cvt: string, sync: bool)
    | KnobMember(attr: string, knob: string, subid: string, cvt: string, readOnly: bool, sync: bool)
    | SubMember(attr: string, subid: string, cls: string)
    | CollMember(attr: string, subid: string, cls: string, readOnly: bool)

  /** A piece of the base-OID format string. */
  datatype Part = Lit(text: string) | Hole(param: string)
  datatype Init = Init(params: seq<string>, template: seq<Part>)

  datatype ClassDef = ClassDef(name: string, members: seq<Member>, init: Option<Init>)

  /** What emission accumulates: class blocks, engine names to import, class names with their OIDs. */
  datatype Out = Out(blocks: seq<ClassDef>, used: set<string>, cnames: map<string, string>)

  const CVTS: map<string, string> := map[
    "int8" := "INT8", "uint8" := "UINT8", "int16" := "INT16", "uint16" := "UINT16", "int32" := "INT32",
    "uint32" := "UINT32", "int64" := "INT64", "uint64" := "UINT64", "bool" := "BOOL", "double" := "DOUBLE",
    "string" := "STRING", "address" := "ADDRESS", "integer" := "INT32"]

  function CvtFor(typ: string): Option<string> {
    if typ in CVTS then Some(CVTS[typ]) else None
  }

  function KnobClass(cvt: string): string {
    match cvt
    case "BOOL" => "BoolKnob"
    case "DOUBLE" => "DoubleKnob"
    case "STRING" => "StrKnob"
    case "ADDRESS" => "AddrKnob"
    case _ => "IntKnob"
  }

  /** A named entry is a collection; of the others a typed leaf is a knob. */
  function Classify(entry: Option<Entry>, leaf: bool): Kind {
    if entry.Some? && entry.value.name != "none" then Collection
    else if entry.Some? && entry.value.typ != "none" && leaf then Knob
    else SubObject
  }

  function KindOf(t: Tree): Kind {
    Classify(t.entry, t.kids == [])
  }

  // ---- the constructor of the root class ----------------------------------------------

  /** One level of the path to the emitted root: its parameters and its piece of the OID. */
  function LevelKey(seg: string, entry: Option<Entry>, leaf: bool): Option<string> {
    if seg == "agent" then Some("ta")
    else if Classify(entry, leaf).Collection? then
      Some(if entry.value.name != "composite" then entry.value.name else "name")
    else None
  }

  function LevelParts(seg: string, key: Option<string>): seq<Part> {
    match key
    case None => [Lit("/" + seg + ":")]
    case Some(k) => [Lit("/" + seg + ":"), Hole(k)]
  }

  /** The keys of the levels from the tree root down to p. */
  function Levels(es: seq<Entry>, p: Path): seq<(string, Option<string>)> {
    if p.Top? then [] else Levels(es, p.up) + [(p.seg, LevelKey(p.seg, Registered(es, p), Order(es, p) == []))]
  }

  function Params(levels: seq<(string, Option<string>)>): seq<string> {
    if levels == [] then []
    else (if levels[0].1.Some? then [levels[0].1.value] else []) + Params(levels[1..])
  }

  function Template(levels: seq<(string, Option<string>)>): seq<Part> {
    if levels == [] then [] else LevelParts(levels[0].0, levels[0].1) + Template(levels[1..])
  }

  function InitSpec(es: seq<Entry>, root: Path): Init {
    Init(Params(Levels(es, root)), Template(Levels(es, root)))
  }

  // ---- emission --------------------------------------------------------------------

  /** The self-value of a class whose entry carries one. */
  function SelfMembers(entry: Option<Entry>): Result<seq<Member>, GenError> {
    if entry.None? || entry.value.typ == "none" then Ok([])
    else match CvtFor(entry.value.typ)
      case None => Err(UnknownType)
      case Some(cvt) => Ok([SelfValue(cvt, entry.value.volatile)])
  }

  function Find(kids: seq<Tree>, seg: string): (r: Option<Tree>)
    ensures r.Some? ==> r.value in kids && r.value.seg == seg
  {
    if kids == [] then None else if kids[0].seg == seg then Some(kids[0]) else Find(kids[1..], seg)
  }

  function Picked(kids: seq<Tree>, listed: seq<string>): (r: Result<seq<Tree>, GenError>)
    ensures r.Ok? ==> forall x <- r.value :: x in kids
  {
    if listed == [] then Ok([])
    else match Find(kids, listed[0])
      case None => Err(NotAChild)
      case Some(kid) =>
        var rest :- Picked(kids, listed[1..]);
        Ok([kid] + rest)
  }

  /** The children that are emitted: all, or at the root only the listed ones. */
  function Items(t: Tree, listed: Option<seq<string>>): (r: Result<seq<Tree>, GenError>)
    ensures r.Ok? ==> forall x <- r.value :: x in t.kids
  {
    match listed
    case None => Ok(t.kids)
    case Some(segs) => Picked(t.kids, segs)
  }

  /** The member a child becomes in its parent's class. */
  function MemberOf(seg: string, path: Path, entry: Option<Entry>, leaf: bool, root: Path): Result<Member, GenError> {
    var attr, readOnly := AttrName(seg), entry.Some? && entry.value.access == "read_only";
    match Classify(entry, leaf)
    case Knob =>
      (match CvtFor(entry.value.typ)
       case None => Err(UnknownType)
       case Some(cvt) => Ok(KnobMember(attr, KnobClass(cvt), seg, cvt, readOnly, entry.value.volatile)))
    case SubObject => Ok(SubMember(attr, seg, ClassName(path, root)))
    case Collection => Ok(CollMember(attr, seg, ClassName(path, root), readOnly))
  }

  function MemberFor(kid: Tree, root: Path): Result<Member, GenError> {
    MemberOf(kid.seg, kid.path, kid.entry, kid.kids == [], root)
  }

  lemma {:induction false} KidIsSmaller(t: Tree, items: seq<Tree>, i: nat)
    requires i < |items| && forall x <- items :: x in t.kids
    ensures items[i] < t
  {
    assert items[i] in items && items[i] in t.kids;
    var k :| 0 <= k < |t.kids| && t.kids[k] == items[i];
  }

  function AttrOf(m: Member): string {
    if m.SelfValue? then "value" else m.attr
  }

  /** The class a member refers to. */
  function ClassRef(m: Member): Option<string> {
    if m.SubMember? || m.CollMember? then Some(m.cls) else None
  }

  /** The engine class a member calls. */
  function EngineName(m: Member): string {
    match m
    case SelfValue(_, _) => "SelfKnob"
    case KnobMember(_, knob, _, _, _, _) => knob
    case SubMember(_, _, _) => "SubObject"
    case CollMember(_, _, _, _) => "Collection"
  }

  /** _emit_class: children's classes first, then the class of t. */
  function EmitClass(t: Tree, root: Path, init: Init, listed: Option<seq<string>>, out: Out): Result<Out, GenError>
    decreases t, 1, 0
  {
    var cname := ClassName(t.path, root);
    if cname in out.cnames then Err(ClassCollision) else
    var self :- SelfMembers(t.entry);
    var items :- Items(t, listed);
    var used := if self == [] then out.used else out.used + {"SelfKnob"};
    var named := Out(out.blocks, used, out.cnames[cname := Oid(t.path)]);
    var (below, members) :- EmitKids(t, items, root, init, named, {});
    Ok(below.(blocks := below.blocks + [ClassDef(cname, self + members, if t.path == root then Some(init) else None)]))
  }

  function EmitKids(t: Tree, items: seq<Tree>, root: Path, init: Init, out: Out, attrs: set<string>)
    : Result<(Out, seq<Member>), GenError>
    requires forall x <- items :: x in t.kids
    decreases t, 0, |items|
  {
    if items == [] then Ok((out, [])) else
    var kid := items[0];
    if AttrName(kid.seg) in attrs then Err(AttrCollision) else
    var m :- MemberFor(kid, root);
    var used := out.(used := out.used + {EngineName(m)});
    assert kid < t by { KidIsSmaller(t, items, 0); }
    var below :- if KindOf(kid).Knob? then Ok(used) else EmitClass(kid, root, init, None, used);
    var (rest, members) :- EmitKids(t, items[1..], root, init, below, attrs + {AttrName(kid.seg)});
    Ok((rest, [m] + members))
  }

  const EMPTY_OUT := Out([], {"CfgObject"}, map[])

  /** emit_module for the node at root. */
  function EmitModule(t: Tree, init: Init, listed: Option<seq<string>>): Result<Out, GenError> {
    EmitClass(t, t.path, init, listed, EMPTY_OUT)
  }
}
