/** Right names, in terms of the nodes of the CM tree instead of the blocks emitted for them. */
module CfgNodes {
  import opened Common
  import opened CfgNames
  import opened CfgEmit
  import opened CfgEngine
  import opened CfgShape
  import opened CfgAccess
  import opened CfgImport
  import opened CfgCorrect
  import opened CfgTree
  import opened CfgGenerate
  import opened CfgTheorems

  /** The emitted nodes that are not knobs, children first. */
  ghost function ClassNodes(t: Tree, listed: Option<seq<string>>): (ns: seq<Tree>)
    ensures |ns| > 0 && ns[|ns| - 1] == t
    decreases t, 1, 0
  {
    (if Items(t, listed).Ok? then KidNodes(t, Items(t, listed).value) else []) + [t]
  }

  ghost function KidNodes(t: Tree, items: seq<Tree>): seq<Tree>
    requires forall x <- items :: x in t.kids
    decreases t, 0, |items|
  {
    if items == [] then [] else
    assert items[0] < t by { KidIsSmaller(t, items, 0); }
    (if KindOf(items[0]).Knob? then [] else ClassNodes(items[0], None)) + KidNodes(t, items[1..])
  }

  /** The engine class that a child's member calls. */
  function EngineOf(kid: Tree): string {
    match KindOf(kid)
    case Knob => KnobClass(match CvtFor(kid.entry.value.typ) case Some(c) => c case None => "")
    case SubObject => "SubObject"
    case Collection => "Collection"
  }

  /** The attributes that stand before the k-th child. */
  function AttrsBefore(x: Tree, items: seq<Tree>, k: nat): set<string>
    requires k <= |items|
  {
    (set q | 0 <= q < k :: AttrName(items[q].seg)) + if Carries(x) then {"value"} else {}
  }

  /** The k-th child of a class node: neither its engine class nor its own class is hidden. */
  predicate RightChild(x: Tree, items: seq<Tree>, k: nat, root: Path, names: set<string>)
    requires k < |items|
  {
    var before := AttrsBefore(x, items, k);
    && EngineOf(items[k]) !in names && EngineOf(items[k]) !in before && !Dunder(AttrName(items[k].seg))
    && (!KindOf(items[k]).Knob? ==> ClassName(items[k].path, root) !in before)
  }

  ghost predicate RightNode(x: Tree, items: seq<Tree>, root: Path, names: set<string>, inherited: set<string>) {
    && inherited <= NodeAttrs(x, items)
    && (Carries(x) ==> "SelfKnob" !in names)
    && forall k :: 0 <= k < |items| ==> RightChild(x, items, k, root, names)
  }

  function ClassNames(ns: seq<Tree>, root: Path): set<string> {
    set x <- ns :: ClassName(x.path, root)
  }

  /** The attributes of the nodes whose class is called CfgObject. */
  function Inherited(ns: seq<Tree>, root: Path): set<string> {
    set x <- ns, a <- NodeAttrs(x, x.kids) | ClassName(x.path, root) == "CfgObject" :: a
  }

  /** b is the class that is emitted for x. */
  ghost predicate IsBlockOf(x: Tree, listed: Option<seq<string>>, root: Path, b: ClassDef) {
    && Checked(x, listed) && Proper(x)
    && b.name == ClassName(x.path, root) && MembersOf(x, root, Items(x, listed).value, b.members)
  }

  ghost predicate AreBlocksOf(ns: seq<Tree>, root: Path, blocks: seq<ClassDef>) {
    |blocks| == |ns| && forall i :: 0 <= i < |ns| ==> IsBlockOf(ns[i], None, root, blocks[i])
  }

  lemma {:induction false} BlocksConcat(ns: seq<Tree>, ms: seq<Tree>, root: Path, a: seq<ClassDef>, b: seq<ClassDef>)
    requires AreBlocksOf(ns, root, a) && AreBlocksOf(ms, root, b)
    ensures AreBlocksOf(ns + ms, root, a + b)
  {
    hide IsBlockOf;
  }

  /** Emission makes one class for each of these nodes, in this order. */
  lemma {:induction false} NodesEmitted(t: Tree, root: Path, init: Init, listed: Option<seq<string>>, out: Out)
    requires EmitClass(t, root, init, listed, out).Ok? && Checked(t, listed) && Proper(t)
    ensures var all, ns := EmitClass(t, root, init, listed, out).value.blocks, ClassNodes(t, listed);
      && out.blocks < all && AreBlocksOf(ns[..|ns| - 1], root, all[|out.blocks|..|all| - 1])
      && IsBlockOf(t, listed, root, all[|all| - 1])
    decreases t, 1, 0
  {
    hide ClassName, Oid, EmitKids, Checked, Proper, MembersOf, IsBlockOf, KidNodes, NamesOf, KindOf, AreBlocksOf;
    var self, items := SelfMembers(t.entry).value, Items(t, listed).value;
    var named := Out(out.blocks, if self == [] then out.used else out.used + {"SelfKnob"},
                     out.cnames[ClassName(t.path, root) := Oid(t.path)]);
    var (below, members) := EmitKids(t, items, root, init, named, {}).value;
    AllKidFacts(t, listed, items);
    EmittedMembers(t, root, init, listed, items, named);
    KidNodesEmitted(t, items, root, init, named, {});
    var all, ns := EmitClass(t, root, init, listed, out).value.blocks, ClassNodes(t, listed);
    var def := all[|all| - 1];
    assert all == below.blocks + [def];
    assert all[|out.blocks|..|all| - 1] == below.blocks[|out.blocks|..] && ns[..|ns| - 1] == KidNodes(t, items);
    assert IsBlockOf(t, listed, root, def) by { BlockIs(t, listed, root, def); }
  }

  lemma {:induction false} BlockIs(t: Tree, listed: Option<seq<string>>, root: Path, def: ClassDef)
    requires Checked(t, listed) && Proper(t) && def.name == ClassName(t.path, root)
    requires MembersOf(t, root, Items(t, listed).value, def.members)
    ensures IsBlockOf(t, listed, root, def)
  {
  }

  lemma {:induction false} KidNodesEmitted(t: Tree, items: seq<Tree>, root: Path, init: Init, out: Out,
                                           attrs: set<string>)
    requires (forall x <- items :: x in t.kids) && EmitKids(t, items, root, init, out, attrs).Ok?
    requires forall kid <- items :: Proper(kid) && (!KindOf(kid).Knob? ==> Checked(kid, None))
    ensures var all := EmitKids(t, items, root, init, out, attrs).value.0.blocks;
      out.blocks <= all && AreBlocksOf(KidNodes(t, items), root, all[|out.blocks|..])
    decreases t, 0, |items|
  {
    hide EmitClass, ClassName, AttrName, Oid, KindOf, MemberFor, Checked, Proper, EngineName, AreBlocksOf, ClassNodes;
    if items == [] {
      assert out.blocks[|out.blocks|..] == [];
      assert AreBlocksOf([], root, []) by { NoBlocksOf(root); }
    } else {
      KidIsSmaller(t, items, 0);
      var kid := items[0];
      var first := out.(used := out.used + {EngineName(MemberFor(kid, root).value)});
      var below := if KindOf(kid).Knob? then first else EmitClass(kid, root, init, None, first).value;
      KidNodesEmitted(t, items[1..], root, init, below, attrs + {AttrName(kid.seg)});
      var all := EmitKids(t, items, root, init, out, attrs).value.0.blocks;
      if KindOf(kid).Knob? {
        assert KidNodes(t, items) == [] + KidNodes(t, items[1..]) == KidNodes(t, items[1..]);
      } else {
        FirstEmitted(kid, root, init, first);
        Slices(out.blocks, below.blocks, all);
        BlocksConcat(ClassNodes(kid, None), KidNodes(t, items[1..]), root, below.blocks[|out.blocks|..],
                     all[|below.blocks|..]);
      }
    }
  }

  lemma {:induction false} FirstEmitted(kid: Tree, root: Path, init: Init, first: Out)
    requires EmitClass(kid, root, init, None, first).Ok? && Checked(kid, None) && Proper(kid)
    ensures var all := EmitClass(kid, root, init, None, first).value.blocks;
      first.blocks <= all && AreBlocksOf(ClassNodes(kid, None), root, all[|first.blocks|..])
    decreases kid, 1, 1
  {
    hide EmitClass, Checked, Proper, AreBlocksOf, IsBlockOf, ClassNodes;
    NodesEmitted(kid, root, init, None, first);
    var all, ns := EmitClass(kid, root, init, None, first).value.blocks, ClassNodes(kid, None);
    var mine := all[|first.blocks|..];
    assert mine[..|mine| - 1] == all[|first.blocks|..|all| - 1];
    BlockOne(ns, root, mine);
  }

  lemma {:induction false} NoBlocksOf(root: Path)
    ensures AreBlocksOf([], root, [])
  {
  }

  lemma {:induction false} Slices<T>(a: seq<T>, b: seq<T>, c: seq<T>)
    requires a <= b <= c
    ensures b[|a|..] + c[|b|..] == c[|a|..]
  {
  }

  lemma {:induction false} BlockOne(ns: seq<Tree>, root: Path, blocks: seq<ClassDef>)
    requires |ns| > 0 && |blocks| > 0 && AreBlocksOf(ns[..|ns| - 1], root, blocks[..|blocks| - 1])
    requires IsBlockOf(ns[|ns| - 1], None, root, blocks[|blocks| - 1])
    ensures AreBlocksOf(ns, root, blocks)
  {
    hide IsBlockOf;
    forall i | 0 <= i < |ns|
      ensures IsBlockOf(ns[i], None, root, blocks[i])
    {
      if i < |ns| - 1 { assert ns[..|ns| - 1][i] == ns[i] && blocks[..|blocks| - 1][i] == blocks[i]; }
    }
  }

  // ---- one block ---------------------------------------------------------------------------

  lemma {:induction false} EngineOfIs(kid: Tree, root: Path)
    requires MemberFor(kid, root).Ok?
    ensures EngineName(MemberFor(kid, root).value) == EngineOf(kid)
  {
    hide ClassName, AttrName, KnobClass, CvtFor;
  }

  lemma {:induction false} AttrsBeforeIs(x: Tree, listed: Option<seq<string>>, root: Path, b: ClassDef, k: nat)
    requires IsBlockOf(x, listed, root, b) && k <= |Items(x, listed).value|
    ensures SelfCount(x) + k <= |b.members|
    ensures AttrsOf(b.members[..SelfCount(x) + k]) == AttrsBefore(x, Items(x, listed).value, k)
  {
    hide AttrName, Proper, CheckedKids, ClassName, MemberFor, AttrOf, Carries;
    var items, ms, n := Items(x, listed).value, b.members, SelfCount(x);
    MemberAttrs(x, root, listed, items, ms);
    var part := ms[..n + k];
    forall a | a in AttrsOf(part)
      ensures a in AttrsBefore(x, items, k)
    {
      var i :| 0 <= i < |part| && AttrOf(part[i]) == a;
      if i >= n { assert AttrOf(ms[n + (i - n)]) == AttrName(items[i - n].seg); }
    }
    forall a | a in AttrsBefore(x, items, k)
      ensures a in AttrsOf(part)
    {
      if q :| 0 <= q < k && AttrName(items[q].seg) == a {
        assert part[n + q] == ms[n + q] && part[n + q] in part;
      } else {
        assert part[0] == ms[0] && part[0] in part;
      }
    }
  }

  lemma {:induction false} RightChildIs(x: Tree, listed: Option<seq<string>>, root: Path, b: ClassDef, k: nat,
                                        names: set<string>)
    requires IsBlockOf(x, listed, root, b) && k < |Items(x, listed).value|
    ensures SelfCount(x) + k < |b.members|
    ensures RightMember(b.members, SelfCount(x) + k, names) <==> RightChild(x, Items(x, listed).value, k, root, names)
  {
    hide AttrName, Proper, CheckedKids, ClassName, MemberFor, AttrsBefore, AttrsOf, EngineName, EngineOf, Dunder,
      Carries;
    var items := Items(x, listed).value;
    AttrsBeforeIs(x, listed, root, b, k);
    EngineOfIs(items[k], root);
    MemberIs(items[k], root);
  }

  /** Nothing is wrong with a block exactly if nothing is with its node. */
  lemma {:induction false} RightNodeIs(x: Tree, listed: Option<seq<string>>, root: Path, b: ClassDef,
                                       names: set<string>, inherited: set<string>)
    requires IsBlockOf(x, listed, root, b)
    ensures RightNode(x, Items(x, listed).value, root, names, inherited) <==>
      inherited <= AttrsOf(b.members) && forall k :: 0 <= k < |b.members| ==> RightMember(b.members, k, names)
  {
    hide AttrName, Proper, CheckedKids, ClassName, MemberFor, NodeAttrs, AttrsOf, RightMember, RightChild, Carries;
    var items, ms, n := Items(x, listed).value, b.members, SelfCount(x);
    MemberAttrSet(x, root, listed, items, ms);
    forall k | 0 <= k < |items|
      ensures RightMember(ms, n + k, names) <==> RightChild(x, items, k, root, names)
    {
      RightChildIs(x, listed, root, b, k, names);
    }
    if Carries(x) { SelfIsRight(ms, names); }
    if RightNode(x, items, root, names, inherited) {
      forall j | 0 <= j < |ms|
        ensures RightMember(ms, j, names)
      {
        if j >= n { assert RightChild(x, items, j - n, root, names) && n + (j - n) == j; }
      }
    }
  }

  lemma {:induction false} SelfIsRight(ms: seq<Member>, names: set<string>)
    requires |ms| > 0 && ms[0].SelfValue?
    ensures RightMember(ms, 0, names) <==> "SelfKnob" !in names
  {
  }

  // ---- the whole module ----------------------------------------------------------------------

  ghost function ItemsAt(ns: seq<Tree>, listed: Option<seq<string>>, i: nat): seq<Tree>
    requires i < |ns|
  {
    var items := Items(ns[i], if i == |ns| - 1 then listed else None);
    if items.Ok? then items.value else []
  }

  /** What the register entries must be like for the names of their module to be right: class names that are
      identifiers, parameters that make a signature, and no node whose engine classes or children's classes are hidden
      by classes of nodes before it or by attributes before them, or which inherits what it does not have. */
  ghost predicate NodesAreRight(ns: seq<Tree>, root: Path, listed: Option<seq<string>>, params: seq<string>) {
    && Signature(params)
    && forall i :: 0 <= i < |ns| ==>
         var name := ClassName(ns[i].path, root);
         && name != "" && !Digit(name[0]) && name !in ["False", "None", "True"]
         && RightNode(ns[i], ItemsAt(ns, listed, i), root, ClassNames(ns[..i], root), Inherited(ns[..i], root))
  }

  lemma {:induction false} NamesOfNodes(ns: seq<Tree>, root: Path, blocks: seq<ClassDef>)
    requires AreBlocksOf(ns, root, blocks)
    ensures NamesOf(blocks) == ClassNames(ns, root) && BaseAttrs(blocks) == Inherited(ns, root)
  {
    hide ClassName, NodeAttrs, AttrsOf, AttrOf;
    if ns == [] {
      assert blocks == [];
    } else {
      var n := |ns| - 1;
      var x, b := ns[n], blocks[n];
      assert ns == ns[..n] + [x] && blocks == blocks[..n] + [b];
      NamesOfNodes(ns[..n], root, blocks[..n]);
      NamesSnoc(blocks[..n], b);
      NodesSnoc(ns[..n], x, root);
      assert IsBlockOf(x, None, root, b);
      MemberAttrSet(x, root, None, x.kids, b.members);
    }
  }

  lemma {:induction false} NodesSnoc(ns: seq<Tree>, x: Tree, root: Path)
    ensures ClassNames(ns + [x], root) == ClassNames(ns, root) + {ClassName(x.path, root)}
    ensures Inherited(ns + [x], root)
         == Inherited(ns, root) + if ClassName(x.path, root) == "CfgObject" then NodeAttrs(x, x.kids) else {}
  {
    hide ClassName, NodeAttrs;
    assert forall y :: y in ns + [x] <==> y in ns || y == x;
  }

  lemma {:induction false} BlocksUpTo(ns: seq<Tree>, root: Path, blocks: seq<ClassDef>, i: nat)
    requires AreBlocksOf(ns, root, blocks) && i <= |ns|
    ensures AreBlocksOf(ns[..i], root, blocks[..i])
  {
    hide IsBlockOf;
  }

  /** One class node of a module. */
  lemma {:induction false} OneNode(t: Tree, init: Init, listed: Option<seq<string>>, i: nat)
    requires EmitModule(t, init, listed).Ok? && Proper(t) && i < |ClassNodes(t, listed)|
    ensures var ns, blocks := ClassNodes(t, listed), EmitModule(t, init, listed).value.blocks;
      && |blocks| == |ns| && blocks[i].name == ClassName(ns[i].path, t.path)
      && (RightBlock(blocks, i) <==> RightNode(ns[i], ItemsAt(ns, listed, i), t.path, ClassNames(ns[..i], t.path),
                                               Inherited(ns[..i], t.path)))
  {
    hide EmitClass, Checked, Proper, MembersOf, AreBlocksOf, ClassNodes, ClassName, RightNode, RightMember, NamesOf,
      BaseAttrs, AttrsOf;
    CheckedByEmission(t, init, listed);
    NodesEmitted(t, t.path, init, listed, EMPTY_OUT);
    var ns, blocks := ClassNodes(t, listed), EmitModule(t, init, listed).value.blocks;
    var n := |ns| - 1;
    assert blocks[0..|blocks| - 1] == blocks[..|blocks| - 1] && |blocks[..|blocks| - 1]| == n by {
      SameLength(ns[..n], t.path, blocks[..|blocks| - 1]);
    }
    BlocksUpTo(ns[..n], t.path, blocks[..n], i);
    assert ns[..n][..i] == ns[..i] && blocks[..n][..i] == blocks[..i];
    NamesOfNodes(ns[..i], t.path, blocks[..i]);
    var at := if i == n then listed else None;
    if i < n { BlockAt(ns[..n], t.path, blocks[..n], i); }
    assert IsBlockOf(ns[i], at, t.path, blocks[i]);
    RightNodeIs(ns[i], at, t.path, blocks[i], NamesOf(blocks[..i]), BaseAttrs(blocks[..i]));
    ItemsAre(ns, t.path, listed, i, blocks[i]);
  }

  lemma {:induction false} ItemsAre(ns: seq<Tree>, root: Path, listed: Option<seq<string>>, i: nat, b: ClassDef)
    requires i < |ns| && IsBlockOf(ns[i], if i == |ns| - 1 then listed else None, root, b)
    ensures ItemsAt(ns, listed, i) == Items(ns[i], if i == |ns| - 1 then listed else None).value
  {
    hide Proper, MembersOf, CheckedKids;
  }

  lemma {:induction false} SameLength(ns: seq<Tree>, root: Path, blocks: seq<ClassDef>)
    requires AreBlocksOf(ns, root, blocks)
    ensures |ns| == |blocks|
  {
  }

  lemma {:induction false} BlockAt(ns: seq<Tree>, root: Path, blocks: seq<ClassDef>, i: nat)
    requires AreBlocksOf(ns, root, blocks) && i < |ns|
    ensures IsBlockOf(ns[i], None, root, blocks[i])
  {
  }

  /** Whether the names of a generated module are right can be told from its register entries alone. */
  lemma {:induction false} RightNamesOfEntries(es: seq<Entry>, p: Path, listed: Option<seq<string>>)
    requires Plain(es) && Known(es, p) && EmitModule(TreeOf(es, p), InitSpec(es, p), listed).Ok?
    ensures NamesAreRight(EmitModule(TreeOf(es, p), InitSpec(es, p), listed).value.blocks) <==>
      NodesAreRight(ClassNodes(TreeOf(es, p), listed), p, listed, InitSpec(es, p).params)
  {
    hide EmitModule, Known, Proper, Subtrees, InitSpec, ClassNodes, ClassName, RightNode, RightBlock, Identifier,
      Signature, ItemsAt, ClassNames, Inherited;
    var t, init := TreeOf(es, p), InitSpec(es, p);
    TreeIsProper(es, p);
    InitOnlyAtRoot(t, init, listed);
    InitsOf(t, init, listed);
    var ns, blocks := ClassNodes(t, listed), EmitModule(t, init, listed).value.blocks;
    forall i | 0 <= i < |ns|
      ensures |blocks| == |ns| && blocks[i].name == ClassName(ns[i].path, p)
      ensures RightBlock(blocks, i) <==>
        RightNode(ns[i], ItemsAt(ns, listed, i), p, ClassNames(ns[..i], p), Inherited(ns[..i], p))
      ensures var name := ClassName(ns[i].path, p);
        Identifier(name) <==> name != "" && !Digit(name[0]) && name !in ["False", "None", "True"]
    {
      OneNode(t, init, listed, i);
      ClassNameIsIdentifier(ns[i].path, p);
    }
    assert blocks[|blocks| - 1] in blocks;
  }
}
