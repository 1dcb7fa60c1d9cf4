/** Running emitted modules: exactly when one can be imported, and what its classes then hold. */
module CfgImport {
  import opened Common
  import opened CfgNames
  import opened CfgEmit
  import opened CfgEngine
  import opened CfgShape

  // ---- running blocks ----------------------------------------------------------------------

  lemma {:induction false} ExecSnoc(blocks: seq<ClassDef>, def: ClassDef, env0: Env)
    ensures Exec(blocks + [def], env0).Some? <==>
      Exec(blocks, env0).Some? && Base(Exec(blocks, env0).value).Some?
      && RunBody(def.members, Exec(blocks, env0).value, {}).Some?
    ensures Exec(blocks + [def], env0).Some? ==>
      var before := Exec(blocks, env0).value;
      var base, own := Base(before).value, RunBody(def.members, before, {}).value;
      var init := if def.init.Some? then def.init else base.init;
      Exec(blocks + [def], env0).value == before[def.name := UserClass(ClassVal(def.name, base.slots + own, init))]
  {
    hide RunBody, Base;
    assert (blocks + [def])[..|blocks|] == blocks;
  }

  lemma {:induction false} ExecPrefix(a: seq<ClassDef>, b: seq<ClassDef>, env0: Env)
    requires a <= b && Exec(b, env0).Some?
    ensures Exec(a, env0).Some?
    decreases |b|
  {
    hide Exec;
    if a != b {
      var rest, def := b[..|b| - 1], b[|b| - 1];
      assert a <= rest && b == rest + [def];
      ExecSnoc(rest, def, env0);
      ExecPrefix(a, rest, env0);
    }
  }

  /** A name that no further block defines keeps its value. */
  lemma {:induction false} ExecKeeps(a: seq<ClassDef>, b: seq<ClassDef>, env0: Env, n: string)
    requires a <= b && Exec(b, env0).Some? && (forall i :: |a| <= i < |b| ==> b[i].name != n)
    requires Exec(a, env0).Some? && n in Exec(a, env0).value
    ensures n in Exec(b, env0).value && Exec(b, env0).value[n] == Exec(a, env0).value[n]
    decreases |b|
  {
    hide RunBody, Exec;
    if a != b {
      var rest, def := b[..|b| - 1], b[|b| - 1];
      assert a <= rest && b == rest + [def];
      ExecSnoc(rest, def, env0);
      ExecKeeps(a, rest, env0, n);
    }
  }

  /** What stands in the environment: the classes defined, none with a constructor, and the imports they do not hide. */
  ghost predicate Defines(env: Env, used: set<string>, names: set<string>) {
    && (forall n :: n in env <==> n in used || n in names)
    && (forall n <- env :: if n in names then env[n].UserClass? && env[n].cls.init.None? else env[n] == EngineClass(n))
  }

  /** The attributes a class inherits when it comes behind these blocks. */
  function BaseAttrs(blocks: seq<ClassDef>): set<string> {
    set b <- blocks, m <- b.members | b.name == "CfgObject" :: AttrOf(m)
  }

  ghost predicate NoInits(blocks: seq<ClassDef>) {
    forall b <- blocks :: b.init.None?
  }

  lemma {:induction false} BodyKeys(ms: seq<Member>, env: Env, locals: set<string>)
    requires RunBody(ms, env, locals).Some?
    ensures RunBody(ms, env, locals).value.Keys == AttrsOf(ms)
  {
    hide RunMember, AttrOf;
    if ms != [] {
      BodyKeys(ms[1..], env, locals + {AttrOf(ms[0])});
      assert ms == [ms[0]] + ms[1..];
      AttrsCons(ms[0], ms[1..]);
    }
  }

  lemma {:induction false} AttrsCons(m: Member, ms: seq<Member>)
    ensures AttrsOf([m] + ms) == {AttrOf(m)} + AttrsOf(ms)
  {
    hide AttrOf;
    assert forall x :: x in [m] + ms <==> x == m || x in ms;
  }

  lemma {:induction false} NamesSnoc(blocks: seq<ClassDef>, def: ClassDef)
    ensures NamesOf(blocks + [def]) == NamesOf(blocks) + {def.name}
    ensures BaseAttrs(blocks + [def])
         == BaseAttrs(blocks) + if def.name == "CfgObject" then AttrsOf(def.members) else {}
  {
    hide AttrOf;
    assert forall x :: x in blocks + [def] <==> x in blocks || x == def;
  }

  lemma {:induction false} ExecDefines(blocks: seq<ClassDef>, used: set<string>)
    requires NoInits(blocks) && Exec(blocks, Imports(used)).Some?
    ensures Defines(Exec(blocks, Imports(used)).value, used, NamesOf(blocks))
  {
    hide RunBody, Base, NamesOf, Exec;
    if blocks == [] {
      assert Defines(Exec(blocks, Imports(used)).value, used, NamesOf(blocks)) by { NothingDefined(used); }
    } else {
      var rest, def := blocks[..|blocks| - 1], blocks[|blocks| - 1];
      assert blocks == rest + [def] && def in blocks;
      ExecSnoc(rest, def, Imports(used));
      ExecDefines(rest, used);
      BaseHasNoInit(Exec(rest, Imports(used)).value, used, NamesOf(rest));
      NamesSnoc(rest, def);
    }
  }

  lemma {:induction false} BaseHasNoInit(env: Env, used: set<string>, names: set<string>)
    requires Defines(env, used, names)
    ensures Base(env).Some? ==> Base(env).value.init.None?
    ensures Base(env).Some? <==> "CfgObject" in used || "CfgObject" in names
  {
  }

  lemma {:induction false} NothingDefined(used: set<string>)
    ensures Exec([], Imports(used)) == Some(Imports(used)) && Defines(Imports(used), used, NamesOf([]))
    ensures Base(Imports(used)).Some? ==> Base(Imports(used)).value.slots.Keys == BaseAttrs([])
  {
  }

  /** A base class brings the attributes of the blocks with its name. */
  lemma {:induction false} BaseKeys(blocks: seq<ClassDef>, used: set<string>)
    requires Exec(blocks, Imports(used)).Some? && Base(Exec(blocks, Imports(used)).value).Some?
    ensures Base(Exec(blocks, Imports(used)).value).value.slots.Keys == BaseAttrs(blocks)
  {
    hide RunBody, BaseAttrs, AttrsOf, Exec;
    if blocks == [] {
      NothingDefined(used);
    } else {
      var rest, def := blocks[..|blocks| - 1], blocks[|blocks| - 1];
      assert blocks == rest + [def];
      ExecSnoc(rest, def, Imports(used));
      BaseKeys(rest, used);
      NamesSnoc(rest, def);
      BodyKeys(def.members, Exec(rest, Imports(used)).value, {});
    }
  }

  // ---- exactly when a module can be imported ------------------------------------------------

  /** An assignment does not raise: nothing the body assigned before is called, and a generated class only if it is
      called with an OID alone. */
  predicate Callable(m: Member, names: set<string>, attrs: set<string>) {
    !Dunder(AttrOf(m)) && EngineName(m) !in attrs && (EngineName(m) in names ==> Bare(m))
  }

  ghost predicate BodyLoads(ms: seq<Member>, names: set<string>, locals: set<string>) {
    forall k :: 0 <= k < |ms| ==> Callable(ms[k], names, locals + AttrsOf(ms[..k]))
  }

  /** The module parses, and no assignment of its classes raises. */
  ghost predicate Loads(blocks: seq<ClassDef>) {
    forall i :: 0 <= i < |blocks| ==>
      && Identifier(blocks[i].name) && (blocks[i].init.Some? ==> Signature(blocks[i].init.value.params))
      && BodyLoads(blocks[i].members, NamesOf(blocks[..i]), {})
  }

  /** What a body calls is imported, and the classes it refers to are defined. */
  ghost predicate Provided(ms: seq<Member>, used: set<string>, names: set<string>) {
    forall m <- ms :: EngineName(m) in used && (ClassRef(m).Some? ==> ClassRef(m).value in names)
  }

  lemma {:induction false} MemberExactly(m: Member, env: Env, used: set<string>, names: set<string>,
                                         locals: set<string>)
    requires Defines(env, used, names) && Provided([m], used, names)
    ensures RunMember(m, env, locals).Some? <==> Callable(m, names, locals)
  {
    hide Dunder;
    assert m in [m];
  }

  lemma {:induction false} BodyExactly(ms: seq<Member>, env: Env, used: set<string>, names: set<string>,
                                       locals: set<string>)
    requires Defines(env, used, names) && Provided(ms, used, names)
    ensures RunBody(ms, env, locals).Some? <==> BodyLoads(ms, names, locals)
  {
    hide Callable, Defines, RunMember, AttrOf;
    if ms != [] {
      MemberExactly(ms[0], env, used, names, locals);
      BodyExactly(ms[1..], env, used, names, locals + {AttrOf(ms[0])});
      BodyShifts(ms, names, locals);
    }
  }

  lemma {:induction false} BodyShifts(ms: seq<Member>, names: set<string>, locals: set<string>)
    requires ms != []
    ensures BodyLoads(ms, names, locals) <==>
            Callable(ms[0], names, locals) && BodyLoads(ms[1..], names, locals + {AttrOf(ms[0])})
  {
    hide Callable, AttrOf;
    AttrsShift(ms, locals);
    var attr := AttrOf(ms[0]);
    if BodyLoads(ms, names, locals) {
      forall k | 0 <= k < |ms[1..]|
        ensures Callable(ms[1..][k], names, locals + {attr} + AttrsOf(ms[1..][..k]))
      {
        assert ms[1..][k] == ms[k + 1] && Callable(ms[k + 1], names, locals + AttrsOf(ms[..k + 1]));
      }
    }
    if Callable(ms[0], names, locals) && BodyLoads(ms[1..], names, locals + {attr}) {
      forall k | 0 <= k < |ms|
        ensures Callable(ms[k], names, locals + AttrsOf(ms[..k]))
      {
        if k > 0 {
          assert ms[1..][k - 1] == ms[k];
          assert Callable(ms[1..][k - 1], names, locals + {attr} + AttrsOf(ms[1..][..k - 1]));
        }
      }
    }
  }

  lemma {:induction false} AttrsShift(ms: seq<Member>, locals: set<string>)
    requires ms != []
    ensures locals + AttrsOf(ms[..0]) == locals
    ensures forall k :: 0 <= k < |ms| - 1 ==>
      locals + AttrsOf(ms[..k + 1]) == locals + {AttrOf(ms[0])} + AttrsOf(ms[1..][..k])
  {
    hide AttrOf;
    forall k | 0 <= k < |ms| - 1
      ensures locals + AttrsOf(ms[..k + 1]) == locals + {AttrOf(ms[0])} + AttrsOf(ms[1..][..k])
    {
      assert ms[..k + 1] == [ms[0]] + ms[1..][..k];
      AttrsCons(ms[0], ms[1..][..k]);
    }
  }

  /** Class statements run exactly when no assignment raises. */
  lemma {:induction false} ExecExactly(blocks: seq<ClassDef>, used: set<string>)
    requires "CfgObject" in used && forall i :: 0 <= i < |blocks| - 1 ==> blocks[i].init.None?
    requires forall i :: 0 <= i < |blocks| ==> Provided(blocks[i].members, used, NamesOf(blocks[..i]))
    ensures Exec(blocks, Imports(used)).Some? <==>
      forall i :: 0 <= i < |blocks| ==> BodyLoads(blocks[i].members, NamesOf(blocks[..i]), {})
  {
    hide RunBody, BodyLoads, Base, NamesOf, Exec, Provided;
    if blocks == [] {
      NothingDefined(used);
    } else {
      var rest, def := blocks[..|blocks| - 1], blocks[|blocks| - 1];
      assert blocks == rest + [def];
      forall i | 0 <= i < |rest|
        ensures rest[i] == blocks[i] && rest[..i] == blocks[..i]
      {
      }
      ExecExactly(rest, used);
      ExecSnoc(rest, def, Imports(used));
      if Exec(rest, Imports(used)).Some? {
        ExecDefines(rest, used);
        BaseHasNoInit(Exec(rest, Imports(used)).value, used, NamesOf(rest));
        BodyExactly(def.members, Exec(rest, Imports(used)).value, used, NamesOf(rest), {});
      }
    }
  }

  // ---- emitted modules -------------------------------------------------------------------

  /** The strings of the constructor hold what they spell. */
  ghost predicate LiteralInit(init: Init) {
    forall p <- init.template :: p.Lit? ==> Literal(p.text)
  }

  lemma {:induction false} UsedMembers(ms: seq<Member>, m: Member)
    requires m in ms
    ensures EngineName(m) in MembersUse(ms)
  {
    if ms[0] != m {
      UsedMembers(ms[1..], m);
    }
  }

  lemma {:induction false} UsedBlocks(blocks: seq<ClassDef>, i: nat)
    requires i < |blocks|
    ensures MembersUse(blocks[i].members) <= UsedBy(blocks)
  {
    if i < |blocks| - 1 {
      UsedBlocks(blocks[..|blocks| - 1], i);
    }
  }

  lemma {:induction false} EmittedIsProvided(blocks: seq<ClassDef>, used: set<string>, i: nat)
    requires i < |blocks| && UsedBy(blocks) <= used && RefersTo(blocks[i].members, NamesOf(blocks[..i]))
    ensures Provided(blocks[i].members, used, NamesOf(blocks[..i]))
  {
    hide NamesOf, UsedBy, MembersUse;
    forall m | m in blocks[i].members
      ensures EngineName(m) in used
    {
      UsedBlocks(blocks, i);
      UsedMembers(blocks[i].members, m);
    }
  }

  /** A usable attribute is an identifier. */
  lemma {:induction false} UsableIsIdentifier(m: Member)
    requires m.SelfValue? || (Usable(m.attr) && Literal(m.subid))
    ensures !Dunder(AttrOf(m)) ==> Identifier(AttrOf(m)) && (m.SelfValue? || Literal(m.subid))
  {
    hide KEYWORDS;
    if m.SelfValue? {
      assert "value" !in KEYWORDS by { ValueIsNoKeyword(); }
    }
  }

  lemma {:induction false} ValueIsNoKeyword()
    ensures "value" !in KEYWORDS
  {
    assert "value" !in KEYWORDS_TO_DEL;
    assert "value" !in KEYWORDS_TO_LAMBDA;
    assert "value" !in KEYWORDS_TO_YIELD;
  }

  lemma {:induction false} BlockParses(b: ClassDef, names: set<string>)
    requires UsableAttrs(b.members) && (b.init.Some? ==> LiteralInit(b.init.value))
    requires BodyLoads(b.members, names, {})
    ensures Parses(b) <==> Identifier(b.name) && (b.init.Some? ==> Signature(b.init.value.params))
  {
    hide Identifier, Dunder, Usable, Signature, Literal, EngineName, Bare;
    forall m | m in b.members
      ensures Identifier(AttrOf(m)) && (m.SelfValue? || Literal(m.subid))
    {
      var k :| 0 <= k < |b.members| && b.members[k] == m;
      assert Callable(b.members[k], names, {} + AttrsOf(b.members[..k]));
      UsableIsIdentifier(m);
    }
  }

  /** An emitted module can be imported if and only if class names and parameters are identifiers and no assignment
      calls what cannot be called so. */
  lemma {:induction false} ImportsExactly(out: Out)
    requires "CfgObject" in out.used && UsedBy(out.blocks) <= out.used && BlocksOk(out.blocks, 0, true)
    requires forall i :: 0 <= i < |out.blocks| - 1 ==> out.blocks[i].init.None?
    requires forall b <- out.blocks :: b.init.Some? ==> LiteralInit(b.init.value)
    ensures Import(out).Some? <==> Loads(out.blocks)
  {
    hide Parses, Exec, UsedBy, UsableAttrs, RefersTo, Provided, BodyLoads, Identifier, LiteralInit, Signature, NamesOf;
    var blocks := out.blocks;
    forall i | 0 <= i < |blocks|
      ensures Provided(blocks[i].members, out.used, NamesOf(blocks[..i]))
    {
      EmittedIsProvided(blocks, out.used, i);
    }
    ExecExactly(blocks, out.used);
    if Exec(blocks, Imports(out.used)).Some? {
      forall i | 0 <= i < |blocks|
        ensures Parses(blocks[i]) <==>
          Identifier(blocks[i].name) && (blocks[i].init.Some? ==> Signature(blocks[i].init.value.params))
      {
        assert blocks[i] in blocks;
        BlockParses(blocks[i], NamesOf(blocks[..i]));
      }
    }
  }

  // ---- exactly when its names keep their meaning ---------------------------------------------

  /** No name of an assignment is hidden, by a class of the module so far or by an attribute of the body so far. */
  predicate Unhidden(m: Member, names: set<string>, attrs: set<string>) {
    && EngineName(m) !in names && EngineName(m) !in attrs && !Dunder(AttrOf(m))
    && (ClassRef(m).Some? ==> ClassRef(m).value !in attrs)
  }

  /** In the body nothing is hidden, and nothing is inherited from a class of the module that is not assigned anew. */
  ghost predicate RightBlock(blocks: seq<ClassDef>, i: nat)
    requires i < |blocks|
  {
    && BaseAttrs(blocks[..i]) <= AttrsOf(blocks[i].members)
    && forall k :: 0 <= k < |blocks[i].members| ==> RightMember(blocks[i].members, k, NamesOf(blocks[..i]))
  }

  ghost predicate RightMember(ms: seq<Member>, k: nat, names: set<string>)
    requires k < |ms|
  {
    Unhidden(ms[k], names, AttrsOf(ms[..k]))
  }

  /** The names an emitted module spells are right: classes and parameters are identifiers, and nothing is hidden. */
  ghost predicate NamesAreRight(blocks: seq<ClassDef>) {
    forall i :: 0 <= i < |blocks| ==>
      && Identifier(blocks[i].name) && (blocks[i].init.Some? ==> Signature(blocks[i].init.value.params))
      && RightBlock(blocks, i)
  }

  lemma {:induction false} RightLoads(blocks: seq<ClassDef>)
    requires NamesAreRight(blocks)
    ensures Loads(blocks)
  {
    hide Identifier, Signature, Dunder, EngineName, AttrOf, BaseAttrs;
    forall i | 0 <= i < |blocks|
      ensures BodyLoads(blocks[i].members, NamesOf(blocks[..i]), {})
    {
      assert RightBlock(blocks, i);
      forall k | 0 <= k < |blocks[i].members|
        ensures Callable(blocks[i].members[k], NamesOf(blocks[..i]), {} + AttrsOf(blocks[i].members[..k]))
      {
        assert {} + AttrsOf(blocks[i].members[..k]) == AttrsOf(blocks[i].members[..k]);
        assert RightMember(blocks[i].members, k, NamesOf(blocks[..i]));
      }
    }
  }

  /** The value an attribute gets, when all attributes are different. */
  lemma {:induction false} BodyGives(ms: seq<Member>, env: Env, locals: set<string>, k: nat)
    requires RunBody(ms, env, locals).Some? && k < |ms|
    requires forall i, j :: 0 <= i < j < |ms| ==> AttrOf(ms[i]) != AttrOf(ms[j])
    ensures RunMember(ms[k], env, locals + AttrsOf(ms[..k])).Some? && AttrOf(ms[k]) in RunBody(ms, env, locals).value
    ensures RunBody(ms, env, locals).value[AttrOf(ms[k])] == RunMember(ms[k], env, locals + AttrsOf(ms[..k])).value
    decreases k
  {
    hide RunMember, AttrOf, AttrsOf, RunBody;
    AttrsShift(ms, locals);
    BodyStep(ms, env, locals);
    var rest := ms[1..];
    if k > 0 {
      assert rest[k - 1] == ms[k];
      BodyGives(rest, env, locals + {AttrOf(ms[0])}, k - 1);
      assert locals + AttrsOf(ms[..k - 1 + 1]) == locals + {AttrOf(ms[0])} + AttrsOf(rest[..k - 1]);
    }
  }

  /** The first assignment keeps its value. */
  lemma {:induction false} BodyStep(ms: seq<Member>, env: Env, locals: set<string>)
    requires ms != [] && RunBody(ms, env, locals).Some?
    requires forall j :: 1 <= j < |ms| ==> AttrOf(ms[0]) != AttrOf(ms[j])
    ensures RunMember(ms[0], env, locals).Some? && RunBody(ms[1..], env, locals + {AttrOf(ms[0])}).Some?
    ensures var (first, rest) := (RunMember(ms[0], env, locals).value,
                                  RunBody(ms[1..], env, locals + {AttrOf(ms[0])}).value);
      RunBody(ms, env, locals).value == rest[AttrOf(ms[0]) := first]
  {
    hide RunMember, AttrOf;
    BodyKeys(ms[1..], env, locals + {AttrOf(ms[0])});
  }
}
