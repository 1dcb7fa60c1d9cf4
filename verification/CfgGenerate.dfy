/** The generator on the node objects: from register entries to an emitted module. */
module CfgGenerate {
  import opened Common
  import opened CfgNames
  import opened CfgTree
  import opened CfgEmit
  import opened CfgAccess

  // ---- the tree of the entries as a value ----------------------------------------------------

  function Height(es: seq<Entry>): nat {
    if es == [] then 0
    else
      var d, rest := Depth(PathOfEntry(es[|es| - 1])), Height(es[..|es| - 1]);
      if d > rest then d else rest
  }

  lemma {:induction false} KnownIsLow(es: seq<Entry>, p: Path)
    requires Known(es, p)
    ensures Depth(p) <= Height(es)
  {
    var e, rest := es[|es| - 1], es[..|es| - 1];
    assert es == rest + [e];
    KnownSplit(rest, e, p);
    if Under(p, PathOfEntry(e)) {
      UnderIsHigher(p, PathOfEntry(e));
    } else {
      KnownIsLow(rest, p);
    }
  }

  /** How much of the tree can still be below p. */
  function Room(es: seq<Entry>, p: Path): nat {
    if Depth(p) <= Height(es) then Height(es) + 1 - Depth(p) else 0
  }

  lemma {:induction false} LessRoom(es: seq<Entry>, p: Path, s: string)
    requires s in Order(es, p)
    ensures Room(es, Sub(p, s)) < Room(es, p)
  {
    OrderListsChildren(es, p);
    KnownIsLow(es, Sub(p, s));
  }

  ghost function TreeOf(es: seq<Entry>, p: Path): Tree
    decreases Room(es, p), 1, 0
  {
    Tree(if p.Sub? then p.seg else "", p, Registered(es, p), Subtrees(es, p, Order(es, p)))
  }

  ghost function Subtrees(es: seq<Entry>, p: Path, segs: seq<string>): (ts: seq<Tree>)
    requires forall s <- segs :: s in Order(es, p)
    ensures |ts| == |segs|
    decreases Room(es, p), 0, |segs|
  {
    if segs == [] then [] else
    LessRoom(es, p, segs[0]);
    [TreeOf(es, Sub(p, segs[0]))] + Subtrees(es, p, segs[1..])
  }

  lemma {:induction false} SubtreeAt(es: seq<Entry>, p: Path, segs: seq<string>, i: nat)
    requires (forall s <- segs :: s in Order(es, p)) && i < |segs|
    ensures Subtrees(es, p, segs)[i] == TreeOf(es, Sub(p, segs[i]))
  {
    if i > 0 {
      assert segs[1..][i - 1] == segs[i];
      SubtreeAt(es, p, segs[1..], i - 1);
    }
  }

  /** OIDs as the Configurator model spells them: object OIDs have no instance names, and no quotes or braces. */
  ghost predicate Plain(es: seq<Entry>) {
    forall e <- es :: ':' !in e.oid && Literal(e.oid)
  }

  lemma {:induction false} SegsOfPlain(oid: string)
    requires ':' !in oid && Literal(oid)
    ensures forall s <- Segs(oid) :: Segment(s)
    decreases |oid|
  {
    var n := SlashAt(oid);
    PartIsPlain(oid, 0, n);
    if n < |oid| {
      PartIsPlain(oid, n + 1, |oid|);
      SegsOfPlain(oid[n + 1..]);
    }
  }

  lemma {:induction false} PartIsPlain(s: string, i: nat, j: nat)
    requires ':' !in s && Literal(s) && i <= j <= |s|
    ensures ':' !in s[i..j] && Literal(s[i..j])
    ensures s[..j] == s[0..j] && s[i..] == s[i..|s|]
  {
    forall c | c in s[i..j]
      ensures c in s
    {
    }
  }

  lemma {:induction false} SegmentOnPath(segs: seq<string>, p: Path, s: string)
    requires Under(Sub(p, s), PathOf(segs))
    ensures s in segs
  {
    if PathOf(segs) != Sub(p, s) {
      SegmentOnPath(segs[..|segs| - 1], p, s);
    }
  }

  lemma {:induction false} TreeIsProper(es: seq<Entry>, p: Path)
    requires Plain(es) && Known(es, p)
    ensures Proper(TreeOf(es, p))
    decreases Room(es, p)
  {
    var t := TreeOf(es, p);
    var e :| e in es && Under(p, PathOfEntry(e));
    SegsOfPlain(e.oid);
    SegmentOnPath(Segs(e.oid), p.up, p.seg);
    OrderListsChildren(es, p);
    forall i | 0 <= i < |t.kids|
      ensures t.kids[i].path == Sub(t.path, t.kids[i].seg) && Proper(t.kids[i])
    {
      var s := Order(es, p)[i];
      SubtreeAt(es, p, Order(es, p), i);
      LessRoom(es, p, s);
      TreeIsProper(es, Sub(p, s));
    }
  }

  /** The segments from r down to p. */
  function Below(r: Path, p: Path): seq<string> {
    if p == r || p.Top? then [] else Below(r, p.up) + [p.seg]
  }

  lemma {:induction false} FindKid(es: seq<Entry>, p: Path, s: string)
    requires Known(es, Sub(p, s))
    ensures Find(TreeOf(es, p).kids, s) == Some(TreeOf(es, Sub(p, s)))
  {
    OrderListsChildren(es, p);
    FindAmong(es, p, Order(es, p), s);
  }

  lemma {:induction false} FindAmong(es: seq<Entry>, p: Path, segs: seq<string>, s: string)
    requires (forall x <- segs :: x in Order(es, p)) && s in segs
    ensures Find(Subtrees(es, p, segs), s) == Some(TreeOf(es, Sub(p, s)))
  {
    if segs[0] != s {
      FindAmong(es, p, segs[1..], s);
    }
  }

  lemma {:induction false} ReachConcat(t: Tree, listed: Option<seq<string>>, a: seq<string>, s: string)
    requires Reach(t, listed, a).Some?
    requires a != [] || listed.None?
    ensures Reach(t, listed, a + [s]) == Find(Reach(t, listed, a).value.kids, s)
    decreases |a|
  {
    if a == [] {
      assert a + [s] == [s] && [s][1..] == [];
    } else {
      assert (a + [s])[1..] == a[1..] + [s];
      ReachConcat(Find(Items(t, listed).value, a[0]).value, None, a[1..], s);
    }
  }

  /** Every node below an emitted root is reached by its own segments. */
  lemma {:induction false} EveryNodeIsReached(es: seq<Entry>, r: Path, p: Path)
    requires Under(r, p) && Known(es, p) && r.Sub?
    ensures Reach(TreeOf(es, r), None, Below(r, p)) == Some(TreeOf(es, p))
    decreases p
  {
    if p != r {
      UnderSub(r, p);
      KnownAbove(es, p.up, p.seg);
      EveryNodeIsReached(es, r, p.up);
      ReachConcat(TreeOf(es, r), None, Below(r, p.up), p.seg);
      FindKid(es, p.up, p.seg);
    }
  }

  lemma {:induction false} UnderSub(r: Path, p: Path)
    requires r.Sub? && Under(r, p) && p != r
    ensures p.Sub? && p.up.Sub?
  {
  }

  lemma {:induction false} PickedFinds(kids: seq<Tree>, listed: seq<string>, s: string)
    requires Picked(kids, listed).Ok?
    ensures Find(Picked(kids, listed).value, s) == if s in listed then Find(kids, s) else None
  {
    if listed != [] {
      PickedFinds(kids, listed[1..], s);
    }
  }

  /** With a list of members the root leads exactly to what is below the listed children. */
  lemma {:induction false} ReachListed(t: Tree, listed: seq<string>, segs: seq<string>)
    requires segs != [] && Picked(t.kids, listed).Ok?
    ensures Reach(t, Some(listed), segs) == if segs[0] in listed then Reach(t, None, segs) else None
  {
    PickedFinds(t.kids, listed, segs[0]);
  }

  // ---- the generator on node objects -----------------------------------------------------------

  datatype Failure = BadTree(b: BuildError) | NoSuchRoot | BadModule(g: GenError)

  /** The tree has been built: nodes are the heap's, es its entries. */
  ghost predicate Built(nodes: map<Path, Node>, es: seq<Entry>)
    reads nodes.Values
  {
    Holds(nodes, es, Top) && forall p <- nodes :: Canonical(p)
  }

  /** What a node object tells about its place in the tree of the entries. */
  lemma {:induction false} NodeIs(nodes: map<Path, Node>, es: seq<Entry>, p: Path)
    requires Built(nodes, es) && p in nodes
    ensures p.Sub? && Canonical(p) && Known(es, p)
    ensures nodes[p].seg == p.seg && nodes[p].oid == Oid(p) && nodes[p].at == p
    ensures nodes[p].entry == Registered(es, p) && nodes[p].order == Order(es, p)
    ensures nodes[p].children == map[] <==> Order(es, p) == []
    ensures forall s :: s in Order(es, p) <==> s in nodes[p].children
    ensures forall s <- nodes[p].children :: Sub(p, s) in nodes && nodes[p].children[s] == nodes[Sub(p, s)]
  {
    var cells := Cells(nodes);
    assert Under(p, Top) <==> p == Top;
    OrderListsChildren(es, p);
    forall s
      ensures s in Order(es, p) <==> s in nodes[p].children
    {
      assert cells[p].kids == nodes[p].children;
      assert Sub(p, s) in nodes <==> Known(es, Sub(p, s)) by { assert !Under(Sub(p, s), Top); }
    }
    assert cells[p].order == Grow(Order(es, p), p, Top) == Order(es, p);
    if Order(es, p) != [] {
      assert Order(es, p)[0] in nodes[p].children;
    } else {
      assert nodes[p].children.Keys == {};
    }
  }

  lemma {:induction false} ParentIs(nodes: map<Path, Node>, es: seq<Entry>, p: Path)
    requires Built(nodes, es) && p in nodes
    ensures p.Sub?
    ensures if p.up.Top? then nodes[p].parent == null else p.up in nodes && nodes[p].parent == nodes[p.up]
  {
    hide Paths, Filled;
    assert Sub(p.up, p.seg) == p;
  }

  /** Up the parent links to the tree root. */
  method Climb(node: Node, ghost p: Path, ghost nodes: map<Path, Node>, ghost es: seq<Entry>)
    returns (levels: seq<(string, Option<string>)>)
    requires Built(nodes, es) && p in nodes && node == nodes[p]
    ensures levels == Levels(es, p)
  {
    hide Built, Canonical, LevelKey, Oid;
    levels := [];
    var n: Node? := node;
    ghost var cur := p;
    while n != null
      invariant if n == null then cur.Top? else cur in nodes && n == nodes[cur]
      invariant Levels(es, p) == Levels(es, cur) + levels
      decreases Depth(cur)
    {
      NodeIs(nodes, es, cur);
      ParentIs(nodes, es, cur);
      var level := (n.seg, LevelKey(n.seg, n.entry, n.children == map[]));
      LevelsUp(es, cur, levels);
      levels := [level] + levels;
      n, cur := n.parent, cur.up;
    }
    assert [] + levels == levels;
  }

  lemma {:induction false} LevelsUp(es: seq<Entry>, p: Path, levels: seq<(string, Option<string>)>)
    requires p.Sub?
    ensures Levels(es, p) + levels
         == Levels(es, p.up) + ([(p.seg, LevelKey(p.seg, Registered(es, p), Order(es, p) == []))] + levels)
  {
  }

  /** _init_spec */
  method InitFor(node: Node, ghost p: Path, ghost nodes: map<Path, Node>, ghost es: seq<Entry>) returns (init: Init)
    requires Built(nodes, es) && p in nodes && node == nodes[p]
    ensures init == InitSpec(es, p)
  {
    hide Built, Params, Template, Levels;
    var levels := Climb(node, p, nodes, es);
    var params, parts := [], [];
    assert levels[0..] == levels && [] + Params(levels) == Params(levels) && [] + Template(levels) == Template(levels);
    for i := 0 to |levels|
      invariant params + Params(levels[i..]) == Params(levels)
      invariant parts + Template(levels[i..]) == Template(levels)
    {
      LevelsCons(levels, i, params, parts);
      if levels[i].1.Some? {
        params := params + [levels[i].1.value];
      }
      parts := parts + LevelParts(levels[i].0, levels[i].1);
    }
    LevelsEnd(levels, params, parts);
    init := Init(params, parts);
  }

  lemma {:induction false} LevelsCons(levels: seq<(string, Option<string>)>, i: nat, params: seq<string>,
                                      parts: seq<Part>)
    requires i < |levels|
    ensures levels[i].1.Some? ==> params + [levels[i].1.value] + Params(levels[i + 1..]) == params + Params(levels[i..])
    ensures levels[i].1.None? ==> Params(levels[i + 1..]) == Params(levels[i..])
    ensures parts + LevelParts(levels[i].0, levels[i].1) + Template(levels[i + 1..]) == parts + Template(levels[i..])
  {
    assert levels[i..][1..] == levels[i + 1..];
  }

  lemma {:induction false} LevelsEnd(levels: seq<(string, Option<string>)>, params: seq<string>, parts: seq<Part>)
    ensures params + Params(levels[|levels|..]) == params && parts + Template(levels[|levels|..]) == parts
  {
  }

  /** The children chosen for emission, as the node objects they are. */
  ghost predicate Stand(kids: seq<Node>, items: seq<Tree>, nodes: map<Path, Node>, es: seq<Entry>, p: Path) {
    && |kids| == |items|
    && forall i :: 0 <= i < |kids| ==>
         var q := Sub(p, kids[i].seg);
         kids[i].seg in Order(es, p) && q in nodes && kids[i] == nodes[q] && items[i] == TreeOf(es, q)
  }

  lemma {:induction false} NothingStands(nodes: map<Path, Node>, es: seq<Entry>, p: Path)
    ensures Stand([], [], nodes, es, p)
  {
  }

  lemma {:induction false} StandSnoc(kids: seq<Node>, items: seq<Tree>, nodes: map<Path, Node>, es: seq<Entry>, p: Path,
                                     s: string)
    requires Stand(kids, items, nodes, es, p)
    requires s in Order(es, p) && Sub(p, s) in nodes && nodes[Sub(p, s)].seg == s
    ensures Stand(kids + [nodes[Sub(p, s)]], items + [TreeOf(es, Sub(p, s))], nodes, es, p)
  {
    hide TreeOf, Order;
  }

  lemma {:induction false} MissingKid(es: seq<Entry>, p: Path, segs: seq<string>, s: string)
    requires (forall x <- segs :: x in Order(es, p)) && s !in segs
    ensures Find(Subtrees(es, p, segs), s) == None
  {
    if segs != [] {
      MissingKid(es, p, segs[1..], s);
    }
  }

  /** The items an include list has found so far, before what the rest of the list picks. */
  ghost function After(items: seq<Tree>, r: Result<seq<Tree>, GenError>): Result<seq<Tree>, GenError> {
    match r
    case Err(e) => Err(e)
    case Ok(rest) => Ok(items + rest)
  }

  lemma {:induction false} KidsOfTree(es: seq<Entry>, p: Path)
    ensures |TreeOf(es, p).kids| == |Order(es, p)|
    ensures forall i :: 0 <= i < |Order(es, p)| ==> TreeOf(es, p).kids[i] == TreeOf(es, Sub(p, Order(es, p)[i]))
  {
    forall i | 0 <= i < |Order(es, p)|
      ensures TreeOf(es, p).kids[i] == TreeOf(es, Sub(p, Order(es, p)[i]))
    {
      SubtreeAt(es, p, Order(es, p), i);
    }
  }

  method AllItems(node: Node, ghost p: Path, ghost nodes: map<Path, Node>, ghost es: seq<Entry>)
    returns (found: seq<Node>)
    requires Built(nodes, es) && p in nodes && node == nodes[p]
    ensures Stand(found, TreeOf(es, p).kids, nodes, es, p)
  {
    hide Built, Oid, Canonical, Known, TreeOf, Order, Registered;
    NodeIs(nodes, es, p);
    KidsOfTree(es, p);
    ghost var kids := TreeOf(es, p).kids;
    found := [];
    for i := 0 to |node.order|
      invariant Stand(found, kids[..i], nodes, es, p)
    {
      var seg := node.order[i];
      assert seg in Order(es, p);
      NodeIs(nodes, es, Sub(p, seg));
      found := found + [node.children[seg]];
    }
    assert kids[..|node.order|] == kids;
  }

  /** The children to emit: all in order, or those listed. */
  method ItemsFor(node: Node, listed: Option<seq<string>>, ghost p: Path, ghost nodes: map<Path, Node>,
                  ghost es: seq<Entry>)
    returns (r: Result<seq<Node>, GenError>, ghost items: seq<Tree>)
    requires Built(nodes, es) && p in nodes && node == nodes[p]
    ensures r.Err? ==> Items(TreeOf(es, p), listed) == Err(r.error)
    ensures r.Ok? ==> Items(TreeOf(es, p), listed) == Ok(items) && Stand(r.value, items, nodes, es, p)
  {
    hide Built, Stand, TreeOf;
    match listed
    case None =>
      var found := AllItems(node, p, nodes, es);
      r, items := Ok(found), TreeOf(es, p).kids;
    case Some(segs) =>
      r, items := ListedItems(node, segs, p, nodes, es);
  }

  method ListedItems(node: Node, segs: seq<string>, ghost p: Path, ghost nodes: map<Path, Node>, ghost es: seq<Entry>)
    returns (r: Result<seq<Node>, GenError>, ghost items: seq<Tree>)
    requires Built(nodes, es) && p in nodes && node == nodes[p]
    ensures r.Err? ==> Picked(TreeOf(es, p).kids, segs) == Err(r.error)
    ensures r.Ok? ==> Picked(TreeOf(es, p).kids, segs) == Ok(items) && Stand(r.value, items, nodes, es, p)
  {
    hide Built, Picked, Oid, Canonical, Known, Stand;
    NothingStands(nodes, es, p);
    NodeIs(nodes, es, p);
    ghost var kids := TreeOf(es, p).kids;
    var found: seq<Node> := [];
    items := [];
    assert segs[0..] == segs;
    AfterNothing(Picked(kids, segs));
    for i := 0 to |segs|
      invariant Stand(found, items, nodes, es, p)
      invariant After(items, Picked(kids, segs[i..])) == Picked(kids, segs)
    {
      if segs[i] !in node.children {
        MissingKid(es, p, Order(es, p), segs[i]);
        PickedMisses(kids, segs[i..]);
        return Err(NotAChild), items;
      }
      FindAmong(es, p, Order(es, p), segs[i]);
      NodeIs(nodes, es, Sub(p, segs[i]));
      ghost var kid := TreeOf(es, Sub(p, segs[i]));
      StandSnoc(found, items, nodes, es, p, segs[i]);
      found := found + [node.children[segs[i]]];
      PickedCons(kids, segs, i, items, kid);
      items := items + [kid];
    }
    PickedNothing(kids, items);
    assert segs[|segs|..] == [];
    r := Ok(found);
  }

  lemma {:induction false} AfterNothing(r: Result<seq<Tree>, GenError>)
    ensures After([], r) == r
  {
    if r.Ok? { assert [] + r.value == r.value; }
  }

  lemma {:induction false} PickedNothing(kids: seq<Tree>, items: seq<Tree>)
    ensures After(items, Picked(kids, [])) == Ok(items)
  {
    assert items + [] == items;
  }

  lemma {:induction false} PickedMisses(kids: seq<Tree>, segs: seq<string>)
    requires segs != [] && Find(kids, segs[0]).None?
    ensures Picked(kids, segs) == Err(NotAChild)
  {
  }

  lemma {:induction false} PickedCons(kids: seq<Tree>, segs: seq<string>, i: nat, items: seq<Tree>, kid: Tree)
    requires i < |segs| && Find(kids, segs[i]) == Some(kid)
    ensures After(items, Picked(kids, segs[i..])) == After(items + [kid], Picked(kids, segs[i + 1..]))
  {
    assert segs[i..][1..] == segs[i + 1..];
    if Picked(kids, segs[i + 1..]).Ok? {
      var rest := Picked(kids, segs[i + 1..]).value;
      assert items + ([kid] + rest) == items + [kid] + rest;
    }
  }

  /** What emission of the remaining children adds to the members collected so far. */
  ghost function Onto(members: seq<Member>, r: Result<(Out, seq<Member>), GenError>)
    : Result<(Out, seq<Member>), GenError>
  {
    match r
    case Err(e) => Err(e)
    case Ok((out, rest)) => Ok((out, members + rest))
  }

  class Emitter {
    var blocks: seq<ClassDef>
    var used: set<string>
    var cnames: map<string, string>

    constructor ()
      ensures View() == EMPTY_OUT
    {
      blocks, used, cnames := [], {"CfgObject"}, map[];
    }

    function View(): Out
      reads this
    {
      Out(blocks, used, cnames)
    }

    /** _emit_class */
    method EmitNode(node: Node, root: Path, init: Init, listed: Option<seq<string>>,
                    ghost p: Path, ghost nodes: map<Path, Node>, ghost es: seq<Entry>)
      returns (err: Option<GenError>)
      requires Built(nodes, es) && p in nodes && node == nodes[p]
      modifies this
      ensures err.Some? ==> EmitClass(TreeOf(es, p), root, init, listed, old(View())) == Err(err.value)
      ensures err.None? ==> EmitClass(TreeOf(es, p), root, init, listed, old(View())) == Ok(View())
      decreases Room(es, p), 1
    {
      hide Built, EmitKids, ClassName, Oid, SelfMembers, Items, Stand, Subtrees, Order, Registered, PathOf, Segs, Known;
      NodeIs(nodes, es, p);
      PathOfOid(p);
      ghost var t := TreeOf(es, p);
      var path := PathOf(Segs(node.oid));
      var cname := ClassName(path, root);
      if cname in cnames {
        return Some(ClassCollision);
      }
      cnames := cnames[cname := node.oid];
      var self := SelfMembers(node.entry);
      if self.Err? {
        return Some(self.error);
      }
      if self.value != [] {
        used := used + {"SelfKnob"};
      }
      var found, items := ItemsFor(node, listed, p, nodes, es);
      if found.Err? {
        return Some(found.error);
      }
      var members: seq<Member>;
      err, members := EmitChildren(found.value, root, init, p, nodes, es, items);
      if err.None? {
        blocks := blocks + [ClassDef(cname, self.value + members, if path == root then Some(init) else None)];
      }
    }

    /** The loop over the children of one class. */
    method EmitChildren(found: seq<Node>, root: Path, init: Init,
                        ghost p: Path, ghost nodes: map<Path, Node>, ghost es: seq<Entry>, ghost items: seq<Tree>)
      returns (err: Option<GenError>, members: seq<Member>)
      requires Built(nodes, es) && p in nodes && Stand(found, items, nodes, es, p)
      requires forall x <- items :: x in TreeOf(es, p).kids
      modifies this
      ensures err.Some? ==> EmitKids(TreeOf(es, p), items, root, init, old(View()), {}) == Err(err.value)
      ensures err.None? ==> EmitKids(TreeOf(es, p), items, root, init, old(View()), {}) == Ok((View(), members))
      decreases Room(es, p), 0
    {
      hide Built, EmitClass, EmitKids, MemberOf, Oid, AttrName, PathOf, Segs, Known, Registered, Subtrees;
      ghost var t := TreeOf(es, p);
      ghost var goal := EmitKids(t, items, root, init, View(), {});
      var attrs: set<string> := {};
      members := [];
      assert items[0..] == items;
      OntoNothing(goal);
      for i := 0 to |found|
        invariant Onto(members, EmitKids(t, items[i..], root, init, View(), attrs)) == goal
      {
        var child := found[i];
        ghost var q, kid, before, had := Sub(p, child.seg), items[i], View(), attrs;
        NodeIs(nodes, es, q);
        PathOfOid(q);
        assert items[i..][0] == kid && items[i..][1..] == items[i + 1..];
        var attr := AttrName(child.seg);
        if attr in attrs {
          KidsCollide(t, items[i..], root, init, View(), attrs);
          return Some(AttrCollision), members;
        }
        attrs := attrs + {attr};
        var leaf := child.children == map[];
        var m := MemberOf(child.seg, PathOf(Segs(child.oid)), child.entry, leaf, root);
        assert leaf <==> kid.kids == [];
        assert m == MemberFor(kid, root);
        if m.Err? {
          KidsFail(t, items[i..], root, init, View(), had);
          return Some(m.error), members;
        }
        used := used + {EngineName(m.value)};
        if !Classify(child.entry, leaf).Knob? {
          LessRoom(es, p, child.seg);
          var kidErr := EmitNode(child, root, init, None, q, nodes, es);
          if kidErr.Some? {
            KidsFailBelow(t, items[i..], root, init, before, had, kidErr.value);
            return kidErr, members;
          }
        }
        KidsCons(t, items[i..], root, init, before, had, View(), members);
        members := members + [m.value];
      }
      assert items[|found|..] == [];
      KidsDone(t, root, init, View(), attrs, members);
      err := None;
    }
  }

  lemma {:induction false} OntoNothing(r: Result<(Out, seq<Member>), GenError>)
    ensures Onto([], r) == r
  {
    if r.Ok? { assert [] + r.value.1 == r.value.1; }
  }

  lemma {:induction false} KidsDone(t: Tree, root: Path, init: Init, out: Out, attrs: set<string>, members: seq<Member>)
    ensures Onto(members, EmitKids(t, [], root, init, out, attrs)) == Ok((out, members))
  {
    assert members + [] == members;
  }

  lemma {:induction false} KidsCollide(t: Tree, items: seq<Tree>, root: Path, init: Init, out: Out, attrs: set<string>)
    requires items != [] && (forall x <- items :: x in t.kids) && AttrName(items[0].seg) in attrs
    ensures EmitKids(t, items, root, init, out, attrs) == Err(AttrCollision)
  {
    hide AttrName;
  }

  lemma {:induction false} KidsFail(t: Tree, items: seq<Tree>, root: Path, init: Init, out: Out, attrs: set<string>)
    requires items != [] && (forall x <- items :: x in t.kids) && AttrName(items[0].seg) !in attrs
    requires MemberFor(items[0], root).Err?
    ensures EmitKids(t, items, root, init, out, attrs) == Err(MemberFor(items[0], root).error)
  {
    hide AttrName, MemberFor;
  }

  lemma {:induction false} KidsFailBelow(t: Tree, items: seq<Tree>, root: Path, init: Init, out: Out,
                                         attrs: set<string>, e: GenError)
    requires items != [] && (forall x <- items :: x in t.kids) && AttrName(items[0].seg) !in attrs
    requires MemberFor(items[0], root).Ok? && !KindOf(items[0]).Knob?
    requires EmitClass(items[0], root, init, None,
      out.(used := out.used + {EngineName(MemberFor(items[0], root).value)})) == Err(e)
    ensures EmitKids(t, items, root, init, out, attrs) == Err(e)
  {
    hide AttrName, MemberFor, KindOf, EmitClass;
  }

  lemma {:induction false} KidsCons(t: Tree, items: seq<Tree>, root: Path, init: Init, out: Out, attrs: set<string>,
                                    below: Out, members: seq<Member>)
    requires items != [] && (forall x <- items :: x in t.kids) && AttrName(items[0].seg) !in attrs
    requires MemberFor(items[0], root).Ok?
    requires var used := out.(used := out.used + {EngineName(MemberFor(items[0], root).value)});
      Ok(below) == if KindOf(items[0]).Knob? then Ok(used) else EmitClass(items[0], root, init, None, used)
    ensures Onto(members, EmitKids(t, items, root, init, out, attrs))
         == Onto(members + [MemberFor(items[0], root).value],
                 EmitKids(t, items[1..], root, init, below, attrs + {AttrName(items[0].seg)}))
  {
    hide AttrName, MemberFor, KindOf, EmitClass;
    var m := MemberFor(items[0], root).value;
    var rest := EmitKids(t, items[1..], root, init, below, attrs + {AttrName(items[0].seg)});
    if rest.Ok? {
      assert members + ([m] + rest.value.1) == members + [m] + rest.value.1;
    }
  }


  /** The path of the emitted root: the tree's root, then the further segments of the target's OID. */
  function Target(rootSeg: string, oid: string): Path {
    PathOf([rootSeg] + if Segs(oid) == [] then [] else Segs(oid)[1..])
  }

  lemma {:induction false} PathStep(seg: string, segs: seq<string>, i: nat)
    requires i < |segs|
    ensures PathOf([seg] + segs[..i + 1]) == Sub(PathOf([seg] + segs[..i]), segs[i])
    ensures ([seg] + segs)[..i + 1] == [seg] + segs[..i] && ([seg] + segs)[i + 1] == segs[i]
  {
    PathOfSnoc([seg] + segs, i + 1);
    assert ([seg] + segs)[..i + 1] == [seg] + segs[..i];
    assert ([seg] + segs)[..i + 2] == [seg] + segs[..i + 1];
  }

  /** From the tree root down by segments, as _root_node does. */
  method Descend(root: Node, segs: seq<string>, ghost nodes: map<Path, Node>, ghost es: seq<Entry>)
    returns (node: Node?)
    requires Built(nodes, es) && OneRoot(nodes, root)
    ensures var p := PathOf([root.seg] + segs);
      if node == null then !Known(es, p) else p in nodes && node == nodes[p]
  {
    hide Built, Known, Canonical, Oid;
    RootIsThere(nodes, root);
    ghost var p := Sub(Top, root.seg);
    var n: Node := root;
    PathOfCons(root.seg, segs);
    for i := 0 to |segs|
      invariant p == PathOf([root.seg] + segs[..i]) && p in nodes && n == nodes[p]
    {
      PathStep(root.seg, segs, i);
      NodeIs(nodes, es, p);
      if segs[i] !in n.children {
        assert i + 2 - 1 == i + 1;
        MissingBelow(nodes, es, [root.seg] + segs, i + 2);
        return null;
      }
      n := n.children[segs[i]];
      p := Sub(p, segs[i]);
    }
    assert segs[..|segs|] == segs;
    node := n;
  }

  lemma {:induction false} PathOfCons(s: string, segs: seq<string>)
    ensures PathOf([s] + segs[..0]) == Sub(Top, s)
  {
    assert [s] + segs[..0] == [s];
  }

  lemma {:induction false} PathOfSnoc(segs: seq<string>, i: nat)
    requires i < |segs|
    ensures PathOf(segs[..i + 1]) == Sub(PathOf(segs[..i]), segs[i])
  {
    assert segs[..i + 1][..i] == segs[..i];
  }

  lemma {:induction false} MissingBelow(nodes: map<Path, Node>, es: seq<Entry>, segs: seq<string>, i: nat)
    requires Built(nodes, es) && 2 <= i <= |segs|
    requires PathOf(segs[..i - 1]) in nodes && segs[i - 1] !in nodes[PathOf(segs[..i - 1])].children
    ensures !Known(es, PathOf(segs))
    decreases |segs| - i
  {
    NodeIs(nodes, es, PathOf(segs[..i - 1]));
    OrderListsChildren(es, PathOf(segs[..i - 1]));
    PathOfSnoc(segs, i - 1);
    UnknownStays(es, segs, i);
  }

  lemma {:induction false} UnknownStays(es: seq<Entry>, segs: seq<string>, i: nat)
    requires 0 < i <= |segs| && !Known(es, PathOf(segs[..i]))
    ensures !Known(es, PathOf(segs))
    decreases |segs| - i
  {
    if i < |segs| {
      PathOfSnoc(segs, i);
      PathOfSnoc(segs, i - 1);
      if Known(es, PathOf(segs[..i + 1])) {
        KnownAbove(es, PathOf(segs[..i]), segs[i]);
      }
      UnknownStays(es, segs, i + 1);
    } else {
      assert segs[..i] == segs;
    }
  }

  /** generate_from for one target: the module emitted for the node at the target's OID, or the failure. */
  method Generate(entries: seq<Entry>, oid: string, listed: Option<seq<string>>)
    returns (r: Result<Out, Failure>, ghost rootSeg: string)
    ensures r.Err? && r.error.BadTree? <==> !HasEntry(entries) || forall s :: !RootedAt(entries, s)
    ensures !(r.Err? && r.error.BadTree?) ==>
      var p := Target(rootSeg, oid);
      && RootedAt(entries, rootSeg)
      && r == if !Known(entries, p) then Err(NoSuchRoot)
              else match EmitModule(TreeOf(entries, p), InitSpec(entries, p), listed)
                case Err(e) => Err(BadModule(e))
                case Ok(out) => Ok(out)
  {
    hide Holds, OneRoot, Known, Canonical, InitSpec, TreeOf, PathOf;
    rootSeg := "";
    var tree, nodes := BuildTree(entries);
    if tree.Err? {
      return Err(BadTree(tree.error)), rootSeg;
    }
    rootSeg := tree.value.seg;
    BuiltNow(nodes, entries, tree.value);
    var segs := Segs(oid);
    var node := Descend(tree.value, if segs == [] then [] else segs[1..], nodes, entries);
    ghost var p := Target(rootSeg, oid);
    if node == null {
      return Err(NoSuchRoot), rootSeg;
    }
    NodeIs(nodes, entries, p);
    PathOfOid(p);
    var init := InitFor(node, p, nodes, entries);
    var emitter := new Emitter();
    assert TreeOf(entries, p).path == p by { PathOfTree(entries, p); }
    var err := emitter.EmitNode(node, PathOf(Segs(node.oid)), init, listed, p, nodes, entries);
    match err
    case Some(e) => r := Err(BadModule(e));
    case None => r := Ok(emitter.View());
  }

  lemma {:induction false} BuiltNow(nodes: map<Path, Node>, es: seq<Entry>, root: Node)
    requires Holds(nodes, es, Top) && OneRoot(nodes, root)
    ensures Built(nodes, es)
  {
  }

  lemma {:induction false} PathOfTree(es: seq<Entry>, p: Path)
    ensures TreeOf(es, p).path == p
  {
  }
}
