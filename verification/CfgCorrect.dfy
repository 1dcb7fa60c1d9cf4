/** The generator as a compiler: exactly when the emitted classes mean what the CM tree says. */
module CfgCorrect {
  import opened Common
  import opened CfgNames
  import opened CfgEmit
  import opened CfgEngine
  import opened CfgShape
  import opened CfgAccess
  import opened CfgImport

  // ---- what it is to be right ------------------------------------------------------------

  /** Following attributes in Python ends as following them in the tree does. */
  ghost predicate Leads(end: Option<Target>, place: Option<Place>) {
    match place
    case None => end.None?
    case Some(AtNode(_, oid)) => end.Some? && end.value.Inst? && end.value.o.oid == oid
    case Some(AtValue(_, oid)) => end == Some(Leaf(oid))
  }

  /** Every chain of attributes on an instance leads where the tree says, and there are no others. */
  ghost predicate Faithful(t: Tree, listed: Option<seq<string>>, cls: ClassVal, oid: string) {
    forall steps :: Leads(Access(Obj(cls, oid), steps), Follow(t, listed, oid, steps))
  }

  ghost predicate FaithfulChild(kid: Tree, v: Value, oid: string) {
    v.UserClass? && forall key: string :: Faithful(kid, None, v.cls, ChildOid(oid, kid, key))
  }

  // ---- one class ---------------------------------------------------------------------------

  function NodeAttrs(t: Tree, items: seq<Tree>): set<string> {
    (set kid <- items :: AttrName(kid.seg)) + if Carries(t) then {"value"} else {}
  }

  /** What the attribute of a child can hold in an imported module. */
  predicate Shaped(kid: Tree, d: Desc) {
    match KindOf(kid)
    case Knob => (d.KnobDesc? && d.subid == kid.seg) || d.ObjectAttr?
    case SubObject => d.SubDesc? && d.subid == kid.seg && CanBeRef(d.cls)
    case Collection => d.CollDesc? && d.subid == kid.seg && CanBeRef(d.cls)
  }

  predicate CanBeRef(v: Value) {
    v.Thing? || (v.UserClass? && v.cls.init.None?)
  }

  function Ref(d: Desc): Value
    requires d.SubDesc? || d.CollDesc?
  {
    d.cls
  }

  ghost predicate RightDesc(kid: Tree, d: Desc, oid: string)
    requires Shaped(kid, d)
  {
    if KindOf(kid).Knob? then d.KnobDesc? else FaithfulChild(kid, Ref(d), oid)
  }

  /** Going on from a child that is an object. */
  lemma {:induction false} AccessChild(kid: Tree, cls: ClassVal, oid: string, key: string, rest: seq<Step>)
    requires !KindOf(kid).Knob? && AttrName(kid.seg) in cls.slots && Shaped(kid, cls.slots[AttrName(kid.seg)])
    ensures var v := Ref(cls.slots[AttrName(kid.seg)]);
      Access(Obj(cls, oid), [Step(AttrName(kid.seg), key)] + rest)
      == if v.UserClass? then Access(Obj(v.cls, ChildOid(oid, kid, key)), rest) else Some(NotAClass)
  {
    hide AttrName, KindOf;
    var steps := [Step(AttrName(kid.seg), key)] + rest;
    assert steps[1..] == rest;
    assert oid + "/" + kid.seg + ":" + "" == oid + "/" + kid.seg + ":";
  }

  lemma {:induction false} ChildIsFaithful(t: Tree, listed: Option<seq<string>>, items: seq<Tree>, cls: ClassVal,
                                           oid: string, i: nat)
    requires Checked(t, listed) && Proper(t) && Items(t, listed) == Ok(items) && i < |items|
    requires AttrName(items[i].seg) in cls.slots && Shaped(items[i], cls.slots[AttrName(items[i].seg)])
    requires Faithful(t, listed, cls, oid)
    ensures RightDesc(items[i], cls.slots[AttrName(items[i].seg)], oid)
  {
    hide AttrName, Checked, Proper, KindOf, Follow, Access, ChildOid;
    var kid, none: seq<Step> := items[i], [];
    var d := cls.slots[AttrName(kid.seg)];
    FollowStep(t, listed, oid, i, "", none);
    var one := [Step(AttrName(kid.seg), "")] + none;
    assert Leads(Access(Obj(cls, oid), one), Follow(t, listed, oid, one));
    if KindOf(kid).Knob? {
      AccessKnob(kid, cls, oid);
      assert one == [Step(AttrName(kid.seg), "")];
    } else {
      AccessChild(kid, cls, oid, "", none);
      FollowNothing(kid, ChildOid(oid, kid, ""));
      forall key: string, rest: seq<Step>
        ensures Leads(Access(Obj(Ref(d).cls, ChildOid(oid, kid, key)), rest),
                      Follow(kid, None, ChildOid(oid, kid, key), rest))
      {
        FollowStep(t, listed, oid, i, key, rest);
        AccessChild(kid, cls, oid, key, rest);
        var steps := [Step(AttrName(kid.seg), key)] + rest;
        assert Leads(Access(Obj(cls, oid), steps), Follow(t, listed, oid, steps));
      }
    }
  }

  lemma {:induction false} FollowNothing(t: Tree, oid: string)
    ensures Follow(t, None, oid, []) == Some(AtNode(t, oid))
  {
  }

  lemma {:induction false} AccessKnob(kid: Tree, cls: ClassVal, oid: string)
    requires KindOf(kid).Knob? && AttrName(kid.seg) in cls.slots && Shaped(kid, cls.slots[AttrName(kid.seg)])
    ensures Access(Obj(cls, oid), [Step(AttrName(kid.seg), "")]) == Some(Leaf(ChildOid(oid, kid, "")))
            <==> cls.slots[AttrName(kid.seg)].KnobDesc?
  {
    hide AttrName;
    assert oid + "/" + kid.seg + ":" + "" == oid + "/" + kid.seg + ":";
    assert [Step(AttrName(kid.seg), "")][1..] == [];
  }

  /** The attributes of a faithful class are the node's. */
  lemma {:induction false} NoOtherAttrs(t: Tree, listed: Option<seq<string>>, items: seq<Tree>, cls: ClassVal,
                                        oid: string, a: string)
    requires Items(t, listed) == Ok(items) && a in cls.slots && Faithful(t, listed, cls, oid)
    ensures a in NodeAttrs(t, items)
  {
    hide AttrName, KindOf;
    var one := [Step(a, "")];
    assert one[1..] == [];
    assert Access(Obj(cls, oid), one).Some?;
    assert Leads(Access(Obj(cls, oid), one), Follow(t, listed, oid, one));
  }

  lemma {:induction false} LeadsOn(t: Tree, listed: Option<seq<string>>, items: seq<Tree>, cls: ClassVal, oid: string,
                                   steps: seq<Step>)
    requires Checked(t, listed) && Proper(t) && Items(t, listed) == Ok(items)
    requires cls.slots.Keys == NodeAttrs(t, items) && (Carries(t) ==> cls.slots["value"].SelfDesc?)
    requires forall kid <- items :: AttrName(kid.seg) in cls.slots && Shaped(kid, cls.slots[AttrName(kid.seg)])
    requires forall kid <- items :: RightDesc(kid, cls.slots[AttrName(kid.seg)], oid)
    ensures Leads(Access(Obj(cls, oid), steps), Follow(t, listed, oid, steps))
  {
    hide AttrName, Checked, Proper, KindOf, Shaped, ChildOid;
    NamesAreUsable(t, listed, items);
    if steps != [] && steps[0].attr != "value" {
      var found := ChildAt(items, steps[0].attr);
      if found.Some? {
        var kid, key, rest := found.value, steps[0].key, steps[1..];
        assert kid in items && steps == [Step(AttrName(kid.seg), key)] + rest;
        if KindOf(kid).Knob? {
          KnobLeads(kid, cls, oid, key, rest);
        } else {
          ObjectLeads(kid, cls, oid, key, rest);
        }
      }
    }
  }

  lemma {:induction false} ObjectLeads(kid: Tree, cls: ClassVal, oid: string, key: string, rest: seq<Step>)
    requires !KindOf(kid).Knob? && AttrName(kid.seg) in cls.slots && Shaped(kid, cls.slots[AttrName(kid.seg)])
    requires RightDesc(kid, cls.slots[AttrName(kid.seg)], oid)
    ensures Leads(Access(Obj(cls, oid), [Step(AttrName(kid.seg), key)] + rest),
                  Follow(kid, None, ChildOid(oid, kid, key), rest))
  {
    hide AttrName, KindOf, ChildOid, Leads, Follow, Access;
    AccessChild(kid, cls, oid, key, rest);
    assert Faithful(kid, None, Ref(cls.slots[AttrName(kid.seg)]).cls, ChildOid(oid, kid, key));
  }

  lemma {:induction false} KnobLeads(kid: Tree, cls: ClassVal, oid: string, key: string, rest: seq<Step>)
    requires KindOf(kid).Knob? && AttrName(kid.seg) in cls.slots && Shaped(kid, cls.slots[AttrName(kid.seg)])
    requires cls.slots[AttrName(kid.seg)].KnobDesc?
    ensures Access(Obj(cls, oid), [Step(AttrName(kid.seg), key)] + rest)
         == if rest == [] then Some(Leaf(ChildOid(oid, kid, key))) else None
  {
    hide AttrName;
    assert oid + "/" + kid.seg + ":" + "" == oid + "/" + kid.seg + ":";
  }

  /** A class is faithful to its node exactly if it has the node's attributes and each leads to its child. */
  lemma {:induction false} FaithfulByMembers(t: Tree, listed: Option<seq<string>>, items: seq<Tree>, cls: ClassVal,
                                             oid: string)
    requires Checked(t, listed) && Proper(t) && Items(t, listed) == Ok(items)
    requires Carries(t) ==> "value" in cls.slots && cls.slots["value"].SelfDesc?
    requires forall kid <- items :: AttrName(kid.seg) in cls.slots && Shaped(kid, cls.slots[AttrName(kid.seg)])
    ensures Faithful(t, listed, cls, oid) <==>
      cls.slots.Keys == NodeAttrs(t, items) && forall kid <- items :: RightDesc(kid, cls.slots[AttrName(kid.seg)], oid)
  {
    hide AttrName, Checked, Proper, KindOf, Shaped, Faithful, RightDesc, Carries;
    if Faithful(t, listed, cls, oid) {
      forall kid | kid in items
        ensures RightDesc(kid, cls.slots[AttrName(kid.seg)], oid)
      {
        var i :| 0 <= i < |items| && items[i] == kid;
        ChildIsFaithful(t, listed, items, cls, oid, i);
      }
      forall a | a in cls.slots
        ensures a in NodeAttrs(t, items)
      {
        NoOtherAttrs(t, listed, items, cls, oid, a);
      }
    }
    if cls.slots.Keys == NodeAttrs(t, items)
       && forall kid <- items :: RightDesc(kid, cls.slots[AttrName(kid.seg)], oid) {
      assert Faithful(t, listed, cls, oid) by {
        ByMembers(t, listed, items, cls, oid);
      }
    }
  }

  lemma {:induction false} ByMembers(t: Tree, listed: Option<seq<string>>, items: seq<Tree>, cls: ClassVal, oid: string)
    requires Checked(t, listed) && Proper(t) && Items(t, listed) == Ok(items)
    requires cls.slots.Keys == NodeAttrs(t, items) && (Carries(t) ==> cls.slots["value"].SelfDesc?)
    requires forall kid <- items :: AttrName(kid.seg) in cls.slots && Shaped(kid, cls.slots[AttrName(kid.seg)])
    requires forall kid <- items :: RightDesc(kid, cls.slots[AttrName(kid.seg)], oid)
    ensures Faithful(t, listed, cls, oid)
  {
    hide AttrName, Checked, Proper, KindOf, Shaped, RightDesc, Carries, NodeAttrs, Access, Follow, Leads;
    forall steps: seq<Step>
      ensures Leads(Access(Obj(cls, oid), steps), Follow(t, listed, oid, steps))
    {
      LeadsOn(t, listed, items, cls, oid, steps);
    }
  }

  // ---- one block ---------------------------------------------------------------------------

  /** The members of a class are those of its node's children. */
  lemma {:induction false} MembersAre(t: Tree, items: seq<Tree>, root: Path, init: Init, out: Out, attrs: set<string>)
    requires (forall x <- items :: x in t.kids) && EmitKids(t, items, root, init, out, attrs).Ok?
    ensures var members := EmitKids(t, items, root, init, out, attrs).value.1;
      |members| == |items| && forall k :: 0 <= k < |items| ==> MemberFor(items[k], root) == Ok(members[k])
    decreases |items|
  {
    hide AttrName, KindOf, MemberFor, EmitClass;
    if items != [] {
      var kid := items[0];
      var m := MemberFor(kid, root).value;
      var used := out.(used := out.used + {EngineName(m)});
      var below := if KindOf(kid).Knob? then used else EmitClass(kid, root, init, None, used).value;
      MembersAre(t, items[1..], root, init, below, attrs + {AttrName(kid.seg)});
    }
  }

  /** What the member of a child is given, and that it is right exactly if nothing the member names is hidden. */
  lemma {:induction false} MemberDesc(kid: Tree, root: Path, env: Env, used: set<string>, names: set<string>,
                                      locals: set<string>)
    requires MemberFor(kid, root).Ok? && Defines(env, used, names)
    requires RunMember(MemberFor(kid, root).value, env, locals).Some?
    requires !KindOf(kid).Knob? ==> ClassName(kid.path, root) in names
    ensures var m := MemberFor(kid, root).value;
      var d := RunMember(m, env, locals).value;
      && AttrOf(m) == AttrName(kid.seg) && Shaped(kid, d)
      && (Unhidden(m, names, locals) <==> if KindOf(kid).Knob? then d.KnobDesc? else Ref(d) != Thing)
      && (!KindOf(kid).Knob? ==> Ref(d) == Thing || Ref(d) == env[ClassName(kid.path, root)])
  {
    hide ClassName, AttrName, Dunder, KnobClass;
  }

  /** The members of a node's class: its own value first, then its children. */
  ghost predicate MembersOf(t: Tree, root: Path, items: seq<Tree>, ms: seq<Member>) {
    && SelfMembers(t.entry).Ok?
    && var n := SelfCount(t);
       |ms| == n + |items| && (Carries(t) ==> ms[0].SelfValue?)
       && forall k :: 0 <= k < |items| ==> MemberFor(items[k], root) == Ok(ms[n + k])
  }

  function SelfCount(t: Tree): nat {
    if Carries(t) then 1 else 0
  }

  lemma {:induction false} MemberAttrs(t: Tree, root: Path, listed: Option<seq<string>>, items: seq<Tree>,
                                       ms: seq<Member>)
    requires Checked(t, listed) && Proper(t) && Items(t, listed) == Ok(items) && MembersOf(t, root, items, ms)
    ensures Carries(t) ==> AttrOf(ms[0]) == "value"
    ensures forall k :: 0 <= k < |items| ==> AttrOf(ms[SelfCount(t) + k]) == AttrName(items[k].seg)
    ensures forall i, j :: 0 <= i < j < |ms| ==> AttrOf(ms[i]) != AttrOf(ms[j])
  {
    hide AttrName, Proper, CheckedKids, KindOf, MemberFor, Carries;
    ChildrenAreChecked(t, items);
    NamesAreUsable(t, listed, items);
    var n := SelfCount(t);
    forall k | 0 <= k < |items|
      ensures AttrOf(ms[n + k]) == AttrName(items[k].seg)
    {
      MemberIs(items[k], root);
    }
    forall i, j | 0 <= i < j < |ms|
      ensures AttrOf(ms[i]) != AttrOf(ms[j])
    {
      assert AttrOf(ms[n + (j - n)]) == AttrName(items[j - n].seg);
      if i >= n {
        assert AttrOf(ms[n + (i - n)]) == AttrName(items[i - n].seg);
        assert AttrName(items[i - n].seg) != AttrName(items[j - n].seg);
      }
    }
  }

  lemma {:induction false} MemberAttrSet(t: Tree, root: Path, listed: Option<seq<string>>, items: seq<Tree>,
                                         ms: seq<Member>)
    requires Checked(t, listed) && Proper(t) && Items(t, listed) == Ok(items) && MembersOf(t, root, items, ms)
    ensures AttrsOf(ms) == NodeAttrs(t, items)
  {
    hide AttrName, Proper, Checked, KindOf, MemberFor, AttrOf, Carries;
    MemberAttrs(t, root, listed, items, ms);
    var n := SelfCount(t);
    forall a | a in AttrsOf(ms)
      ensures a in NodeAttrs(t, items)
    {
      var i :| 0 <= i < |ms| && AttrOf(ms[i]) == a;
      if i >= n { assert ms[i] == ms[n + (i - n)] && items[i - n] in items; }
    }
    forall a | a in NodeAttrs(t, items)
      ensures a in AttrsOf(ms)
    {
      if exists kid <- items :: AttrName(kid.seg) == a {
        var k :| 0 <= k < |items| && AttrName(items[k].seg) == a;
        assert ms[n + k] in ms;
      } else {
        assert ms[0] in ms;
      }
    }
  }

  /** What the class statement of a node has run on, and what it gave. */
  ghost predicate Ran(blocks: seq<ClassDef>, ms: seq<Member>, used: set<string>, own: map<string, Desc>) {
    && NoInits(blocks) && Exec(blocks, Imports(used)).Some?
    && RunBody(ms, Exec(blocks, Imports(used)).value, {}) == Some(own)
  }

  lemma {:induction false} ChildGets(t: Tree, root: Path, listed: Option<seq<string>>, items: seq<Tree>,
                                     blocks: seq<ClassDef>, ms: seq<Member>, used: set<string>, own: map<string, Desc>,
                                     oid: string, k: nat)
    requires Checked(t, listed) && Proper(t) && Items(t, listed) == Ok(items) && MembersOf(t, root, items, ms)
    requires Ran(blocks, ms, used, own) && k < |items|
    requires !KindOf(items[k]).Knob? ==> ClassName(items[k].path, root) in NamesOf(blocks)
    ensures AttrName(items[k].seg) in own && Shaped(items[k], own[AttrName(items[k].seg)])
    ensures !KindOf(items[k]).Knob? ==> ClassName(items[k].path, root) in Exec(blocks, Imports(used)).value
    ensures RightDesc(items[k], own[AttrName(items[k].seg)], oid) <==>
      && RightMember(ms, SelfCount(t) + k, NamesOf(blocks))
      && (!KindOf(items[k]).Knob? ==>
            FaithfulChild(items[k], Exec(blocks, Imports(used)).value[ClassName(items[k].path, root)], oid))
  {
    hide AttrName, Checked, Proper, KindOf, Shaped, Faithful, Carries, ClassName, Exec, RunBody, RunMember, MemberFor,
      Unhidden, AttrsOf, AttrOf, NamesOf;
    var env, kid, j := Exec(blocks, Imports(used)).value, items[k], SelfCount(t) + k;
    ExecDefines(blocks, used);
    MemberAttrs(t, root, listed, items, ms);
    BodyGives(ms, env, {}, j);
    assert {} + AttrsOf(ms[..j]) == AttrsOf(ms[..j]);
    MemberDesc(kid, root, env, used, NamesOf(blocks), AttrsOf(ms[..j]));
  }

  lemma {:induction false} ValueGets(t: Tree, root: Path, listed: Option<seq<string>>, items: seq<Tree>,
                                     blocks: seq<ClassDef>, ms: seq<Member>, used: set<string>, own: map<string, Desc>)
    requires Checked(t, listed) && Proper(t) && Items(t, listed) == Ok(items) && MembersOf(t, root, items, ms)
    requires Ran(blocks, ms, used, own) && Carries(t)
    ensures "value" in own && own["value"].SelfDesc? && RightMember(ms, 0, NamesOf(blocks))
  {
    hide AttrName, Checked, Proper, MemberFor, Exec, RunBody, NamesOf;
    ExecDefines(blocks, used);
    MemberAttrs(t, root, listed, items, ms);
    BodyGives(ms, Exec(blocks, Imports(used)).value, {}, 0);
  }

  /** The class statement of a node: its class is faithful exactly if its block is right and its children's classes are
      faithful. */
  lemma {:induction false} OneClass(t: Tree, root: Path, listed: Option<seq<string>>, items: seq<Tree>,
                                    blocks: seq<ClassDef>, def: ClassDef, used: set<string>, own: map<string, Desc>,
                                    cls: ClassVal, oid: string)
    requires Checked(t, listed) && Proper(t) && Items(t, listed) == Ok(items) && MembersOf(t, root, items, def.members)
    requires Ran(blocks, def.members, used, own) && Base(Exec(blocks, Imports(used)).value).Some?
    requires forall kid <- items :: !KindOf(kid).Knob? ==> ClassName(kid.path, root) in NamesOf(blocks)
    requires cls.slots == Base(Exec(blocks, Imports(used)).value).value.slots + own
    ensures forall kid <- items :: !KindOf(kid).Knob? ==> ClassName(kid.path, root) in Exec(blocks, Imports(used)).value
    ensures Faithful(t, listed, cls, oid) <==>
      && RightBlock(blocks + [def], |blocks|)
      && forall kid <- items :: !KindOf(kid).Knob? ==>
           FaithfulChild(kid, Exec(blocks, Imports(used)).value[ClassName(kid.path, root)], oid)
  {
    hide AttrName, Checked, Proper, KindOf, Shaped, Faithful, RightDesc, Carries, FaithfulChild, ClassName, Exec, Base,
      RunBody, RunMember, MemberFor, RightMember, AttrsOf, BaseAttrs, AttrOf, NamesOf, NodeAttrs, NoInits,
      RightBlock;
    var env, ms, n := Exec(blocks, Imports(used)).value, def.members, SelfCount(t);
    BaseKeys(blocks, used);
    BodyKeys(ms, env, {});
    MemberAttrSet(t, root, listed, items, ms);
    forall k | 0 <= k < |items|
      ensures AttrName(items[k].seg) in own && Shaped(items[k], own[AttrName(items[k].seg)])
      ensures !KindOf(items[k]).Knob? ==> ClassName(items[k].path, root) in env
      ensures RightDesc(items[k], own[AttrName(items[k].seg)], oid) <==>
        && RightMember(ms, n + k, NamesOf(blocks))
        && (!KindOf(items[k]).Knob? ==> FaithfulChild(items[k], env[ClassName(items[k].path, root)], oid))
    {
      ChildGets(t, root, listed, items, blocks, ms, used, own, oid, k);
    }
    if Carries(t) { ValueGets(t, root, listed, items, blocks, ms, used, own); }
    FaithfulByMembers(t, listed, items, cls, oid);
    RightBlockIs(t, root, items, blocks, def);
    forall kid | kid in items
      ensures AttrName(kid.seg) in own && cls.slots[AttrName(kid.seg)] == own[AttrName(kid.seg)]
    {
      var k :| 0 <= k < |items| && items[k] == kid;
    }
    if (forall j :: n <= j < |ms| ==> RightMember(ms, j, NamesOf(blocks)))
       && forall kid <- items :: !KindOf(kid).Knob? ==> FaithfulChild(kid, env[ClassName(kid.path, root)], oid) {
      forall kid | kid in items
        ensures RightDesc(kid, cls.slots[AttrName(kid.seg)], oid)
      {
        var k :| 0 <= k < |items| && items[k] == kid;
        assert RightMember(ms, n + k, NamesOf(blocks));
      }
    }
    if forall kid <- items :: RightDesc(kid, cls.slots[AttrName(kid.seg)], oid) {
      forall j | n <= j < |ms|
        ensures RightMember(ms, j, NamesOf(blocks))
      {
        assert items[j - n] in items && n + (j - n) == j;
      }
      forall kid | kid in items
        ensures !KindOf(kid).Knob? ==> FaithfulChild(kid, env[ClassName(kid.path, root)], oid)
      {
        var k :| 0 <= k < |items| && items[k] == kid;
      }
    }
  }

  /** The block of a node is right exactly if it inherits nothing more and its children's members are. */
  lemma {:induction false} RightBlockIs(t: Tree, root: Path, items: seq<Tree>, blocks: seq<ClassDef>, def: ClassDef)
    requires MembersOf(t, root, items, def.members)
    requires Carries(t) ==> RightMember(def.members, 0, NamesOf(blocks))
    ensures RightBlock(blocks + [def], |blocks|) <==>
      && BaseAttrs(blocks) <= AttrsOf(def.members)
      && forall j :: SelfCount(t) <= j < |def.members| ==> RightMember(def.members, j, NamesOf(blocks))
  {
    hide MemberFor, RightMember, AttrsOf, BaseAttrs, NamesOf, Carries;
    assert (blocks + [def])[..|blocks|] == blocks && (blocks + [def])[|blocks|] == def;
  }

  // ---- the whole module ----------------------------------------------------------------------

  /** From block n on all are right. */
  ghost predicate RightFrom(blocks: seq<ClassDef>, n: nat) {
    forall i :: n <= i < |blocks| ==> RightBlock(blocks, i)
  }

  lemma {:induction false} RightThen(a: seq<ClassDef>, b: seq<ClassDef>, n: nat)
    requires n <= |a| && a <= b
    ensures RightFrom(b, n) <==> RightFrom(a, n) && RightFrom(b, |a|)
  {
    hide RightBlock;
    forall i | 0 <= i < |a|
      ensures RightBlock(a, i) <==> RightBlock(b, i)
    {
      SameBlock(a, b, i);
    }
  }

  lemma {:induction false} SameBlock(a: seq<ClassDef>, b: seq<ClassDef>, i: nat)
    requires i < |a| && a <= b
    ensures RightBlock(a, i) <==> RightBlock(b, i)
  {
    hide RightMember, BaseAttrs, NamesOf, AttrsOf;
    assert a[..i] == b[..i] && a[i] == b[i];
  }

  ghost predicate FaithfulKids(items: seq<Tree>, root: Path, env: Env, oid: string) {
    forall kid <- items :: !KindOf(kid).Knob? ==>
      ClassName(kid.path, root) in env && FaithfulChild(kid, env[ClassName(kid.path, root)], oid)
  }

  /** The class of an emitted node is faithful, at any OID, exactly if all blocks emitted for it are right. */
  lemma {:induction false} ClassIsFaithful(t: Tree, root: Path, init: Init, listed: Option<seq<string>>, out: Out,
                                           used: set<string>, oid: string)
    requires EmitClass(t, root, init, listed, out).Ok? && Checked(t, listed) && Proper(t)
    requires Exec(EmitClass(t, root, init, listed, out).value.blocks, Imports(used)).Some?
    requires var all := EmitClass(t, root, init, listed, out).value.blocks;
      forall i :: 0 <= i < |all| - 1 ==> all[i].init.None?
    ensures var all, name := EmitClass(t, root, init, listed, out).value.blocks, ClassName(t.path, root);
      var env := Exec(all, Imports(used)).value;
      name in env && env[name].UserClass? && (Faithful(t, listed, env[name].cls, oid) <==> RightFrom(all, |out.blocks|))
    decreases t, 1, 0
  {
    hide ClassName, Oid, AttrName, EmitKids, Exec, RunBody, Base, Checked, Proper, KindOf, Faithful, FaithfulChild,
      RightBlock, RightFrom, MemberFor, MembersOf, NamesOf, AttrsOf, NoInits, BlocksOk, RefersTo, EngineName, ClassRef;
    var cname := ClassName(t.path, root);
    var self, items := SelfMembers(t.entry).value, Items(t, listed).value;
    var named := Out(out.blocks, if self == [] then out.used else out.used + {"SelfKnob"},
                     out.cnames[cname := Oid(t.path)]);
    var (below, members) := EmitKids(t, items, root, init, named, {}).value;
    var def := ClassDef(cname, self + members, if t.path == root then Some(init) else None);
    var all := below.blocks + [def];
    assert EmitClass(t, root, init, listed, out).value.blocks == all;
    ExecSnoc(below.blocks, def, Imports(used));
    NoInitsBefore(below.blocks, def);
    AllKidFacts(t, listed, items);
    EmittedMembers(t, root, init, listed, items, named);
    KidsGrow(t, items, root, init, named, {});
    KidsAreFaithful(t, items, root, init, named, {}, used, oid);
    var before := Exec(below.blocks, Imports(used)).value;
    var own := RunBody(def.members, before, {}).value;
    var base := Base(before).value;
    var cls := ClassVal(cname, base.slots + own, if def.init.Some? then def.init else base.init);
    OneClass(t, root, listed, items, below.blocks, def, used, own, cls, oid);
    RightThen(below.blocks, all, |out.blocks|);
    RightLast(below.blocks, def);
  }

  lemma {:induction false} NoInitsBefore(blocks: seq<ClassDef>, def: ClassDef)
    requires var all := blocks + [def]; forall i :: 0 <= i < |all| - 1 ==> all[i].init.None?
    ensures NoInits(blocks)
  {
    forall b | b in blocks
      ensures b.init.None?
    {
      var i :| 0 <= i < |blocks| && blocks[i] == b;
      assert (blocks + [def])[i] == b;
    }
  }

  lemma {:induction false} AllKidFacts(t: Tree, listed: Option<seq<string>>, items: seq<Tree>)
    requires Checked(t, listed) && Proper(t) && Items(t, listed) == Ok(items)
    ensures forall kid <- items :: Proper(kid) && (!KindOf(kid).Knob? ==> Checked(kid, None))
  {
    hide Checked, Proper, KindOf;
    forall kid | kid in items
      ensures Proper(kid) && (!KindOf(kid).Knob? ==> Checked(kid, None))
    {
      var i :| 0 <= i < |items| && items[i] == kid;
      KidFacts(t, listed, items, i);
    }
  }

  lemma {:induction false} RightLast(blocks: seq<ClassDef>, def: ClassDef)
    ensures RightFrom(blocks + [def], |blocks|) <==> RightBlock(blocks + [def], |blocks|)
  {
    hide RightBlock;
  }

  lemma {:induction false} KidsGrow(t: Tree, items: seq<Tree>, root: Path, init: Init, out: Out, attrs: set<string>)
    requires (forall x <- items :: x in t.kids) && EmitKids(t, items, root, init, out, attrs).Ok?
    ensures out.blocks <= EmitKids(t, items, root, init, out, attrs).value.0.blocks
  {
    hide EmitKids, BlocksOk, RefersTo;
    KidsBlocks(t, items, root, init, out, attrs, false);
  }

  /** The members and references of an emitted class. */
  lemma {:induction false} EmittedMembers(t: Tree, root: Path, init: Init, listed: Option<seq<string>>,
                                          items: seq<Tree>, named: Out)
    requires Items(t, listed) == Ok(items) && SelfMembers(t.entry).Ok? && EmitKids(t, items, root, init, named, {}).Ok?
    ensures var (below, members) := EmitKids(t, items, root, init, named, {}).value;
      && MembersOf(t, root, items, SelfMembers(t.entry).value + members)
      && forall kid <- items :: !KindOf(kid).Knob? ==> ClassName(kid.path, root) in NamesOf(below.blocks)
  {
    hide EmitKids, MemberFor, AttrName, ClassName, KindOf, NamesOf;
    var (below, members) := EmitKids(t, items, root, init, named, {}).value;
    MembersAre(t, items, root, init, named, {});
    KidsBlocks(t, items, root, init, named, {}, false);
    forall kid | kid in items
      ensures !KindOf(kid).Knob? ==> ClassName(kid.path, root) in NamesOf(below.blocks)
    {
      var k :| 0 <= k < |items| && items[k] == kid;
      MemberIs(kid, root);
      assert members[k] in members;
    }
  }

  lemma {:induction false} KidsAreFaithful(t: Tree, items: seq<Tree>, root: Path, init: Init, out: Out,
                                           attrs: set<string>, used: set<string>, oid: string)
    requires (forall x <- items :: x in t.kids) && EmitKids(t, items, root, init, out, attrs).Ok?
    requires forall kid <- items :: Proper(kid) && (!KindOf(kid).Knob? ==> Checked(kid, None))
    requires var blocks := EmitKids(t, items, root, init, out, attrs).value.0.blocks;
      NoInits(blocks) && Exec(blocks, Imports(used)).Some?
    ensures var blocks := EmitKids(t, items, root, init, out, attrs).value.0.blocks;
      FaithfulKids(items, root, Exec(blocks, Imports(used)).value, oid) <==> RightFrom(blocks, |out.blocks|)
    decreases t, 0, |items|
  {
    hide EmitClass, ClassName, AttrName, Oid, KindOf, MemberFor, Exec, Checked, Proper, Faithful, FaithfulChild,
      RightBlock, RightFrom, EngineName, BlocksOk, RefersTo, NamesOf;
    if items == [] {
      assert RightFrom(out.blocks, |out.blocks|) by { NoneWrong(out.blocks); }
      return;
    }
    KidIsSmaller(t, items, 0);
    var kid := items[0];
    var attr, m := AttrName(kid.seg), MemberFor(kid, root).value;
    var first := out.(used := out.used + {EngineName(m)});
    var below := if KindOf(kid).Knob? then first else EmitClass(kid, root, init, None, first).value;
    var rest := EmitKids(t, items[1..], root, init, below, attrs + {attr}).value.0;
    KidsAreFaithful(t, items[1..], root, init, below, attrs + {attr}, used, oid);
    KidsGrow(t, items[1..], root, init, below, attrs + {attr});
    var env := Exec(rest.blocks, Imports(used)).value;
    assert FaithfulKids(items, root, env, oid) <==>
      FaithfulKids([kid], root, env, oid) && FaithfulKids(items[1..], root, env, oid) by {
      assert items == [kid] + items[1..];
    }
    if KindOf(kid).Knob? {
      assert FaithfulKids([kid], root, env, oid) && below.blocks == out.blocks;
    } else {
      FirstIsFaithful(t, items, root, init, first, attrs + {attr}, used, oid);
      ClassBlocks(kid, root, init, None, first, false);
      RightThen(below.blocks, rest.blocks, |out.blocks|);
    }
  }

  lemma {:induction false} NoneWrong(blocks: seq<ClassDef>)
    ensures RightFrom(blocks, |blocks|)
  {
  }

  /** The class of the first child, at the end of the loop over the children. */
  lemma {:induction false} FirstIsFaithful(t: Tree, items: seq<Tree>, root: Path, init: Init, first: Out,
                                           attrs: set<string>, used: set<string>, oid: string)
    requires items != [] && (forall x <- items :: x in t.kids) && !KindOf(items[0]).Knob?
    requires EmitClass(items[0], root, init, None, first).Ok? && Checked(items[0], None) && Proper(items[0])
    requires var below := EmitClass(items[0], root, init, None, first).value;
      && EmitKids(t, items[1..], root, init, below, attrs).Ok?
      && var blocks := EmitKids(t, items[1..], root, init, below, attrs).value.0.blocks;
         NoInits(blocks) && Exec(blocks, Imports(used)).Some?
    ensures var below := EmitClass(items[0], root, init, None, first).value;
      var env := Exec(EmitKids(t, items[1..], root, init, below, attrs).value.0.blocks, Imports(used)).value;
      FaithfulKids([items[0]], root, env, oid) <==> RightFrom(below.blocks, |first.blocks|)
    decreases t, 0, |items| - 1, 1
  {
    hide EmitClass, ClassName, AttrName, Oid, KindOf, Exec, Checked, Proper, Faithful, RightBlock, RightFrom, EmitKids;
    KidIsSmaller(t, items, 0);
    var kid := items[0];
    var below := EmitClass(kid, root, init, None, first).value;
    var rest := EmitKids(t, items[1..], root, init, below, attrs).value.0;
    var name := ClassName(kid.path, root);
    ClassStays(t, items, root, init, first, attrs, Imports(used));
    forall i | 0 <= i < |below.blocks|
      ensures below.blocks[i].init.None?
    {
      assert rest.blocks[i] == below.blocks[i] && rest.blocks[i] in rest.blocks;
    }
    ClassIsFaithful(kid, root, init, None, first, used, ChildOid(oid, kid, ""));
    forall key: string
      ensures Faithful(kid, None, Exec(below.blocks, Imports(used)).value[name].cls, ChildOid(oid, kid, key))
              <==> RightFrom(below.blocks, |first.blocks|)
    {
      ClassIsFaithful(kid, root, init, None, first, used, ChildOid(oid, kid, key));
    }
    FirstChild(kid, root, Exec(rest.blocks, Imports(used)).value, oid);
  }

  lemma {:induction false} FirstChild(kid: Tree, root: Path, env: Env, oid: string)
    requires !KindOf(kid).Knob? && ClassName(kid.path, root) in env && env[ClassName(kid.path, root)].UserClass?
    ensures FaithfulKids([kid], root, env, oid) <==>
      forall key: string :: Faithful(kid, None, env[ClassName(kid.path, root)].cls, ChildOid(oid, kid, key))
  {
    hide Faithful, KindOf, ClassName;
    assert kid in [kid];
  }

  /** The class of the first child keeps its value to the end of the loop over the children. */
  lemma {:induction false} ClassStays(t: Tree, items: seq<Tree>, root: Path, init: Init, first: Out, attrs: set<string>,
                                      env0: Env)
    requires items != [] && (forall x <- items :: x in t.kids) && EmitClass(items[0], root, init, None, first).Ok?
    requires var below := EmitClass(items[0], root, init, None, first).value;
      && EmitKids(t, items[1..], root, init, below, attrs).Ok?
      && Exec(EmitKids(t, items[1..], root, init, below, attrs).value.0.blocks, env0).Some?
    ensures var below := EmitClass(items[0], root, init, None, first).value;
      var rest, name := EmitKids(t, items[1..], root, init, below, attrs).value.0, ClassName(items[0].path, root);
      && below.blocks <= rest.blocks && Exec(below.blocks, env0).Some?
      && (name in Exec(below.blocks, env0).value ==>
            name in Exec(rest.blocks, env0).value
            && Exec(rest.blocks, env0).value[name] == Exec(below.blocks, env0).value[name])
  {
    hide EmitClass, ClassName, Exec, EmitKids, Oid, UsedBy, ClassPaths, KidPaths;
    var kid := items[0];
    var below := EmitClass(kid, root, init, None, first).value;
    var rest := EmitKids(t, items[1..], root, init, below, attrs).value.0;
    var name := ClassName(kid.path, root);
    var mine := ClassShape(kid, root, init, None, first);
    var more := KidsShape(t, items[1..], root, init, below, attrs);
    assert below.blocks <= rest.blocks;
    ExecPrefix(below.blocks, rest.blocks, env0);
    LastPath(kid);
    assert mine[|mine| - 1].name == name && name in below.cnames;
    forall i | |below.blocks| <= i < |rest.blocks|
      ensures rest.blocks[i].name != name
    {
      assert rest.blocks[i] == more[i - |below.blocks|];
    }
    if name in Exec(below.blocks, env0).value {
      ExecKeeps(below.blocks, rest.blocks, env0, name);
    }
  }

  lemma {:induction false} LastPath(t: Tree)
    ensures var paths := ClassPaths(t, None); |paths| > 0 && paths[|paths| - 1] == t.path
  {
  }
}
