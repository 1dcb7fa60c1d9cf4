/** build_tree of cfg/_gen.py: register entries become a tree of nodes with parent and child links. */
module CfgTree {
  import opened Common
  import opened CfgNames

  datatype Entry = Entry(oid: string, typ: string, access: string, name: string, volatile: bool)

  datatype BuildError = ForeignRoot | NoEntries

  // ---- what the tree must be, in terms of the entries alone --------------------------

  function PathOfEntry(e: Entry): Path {
    PathOf(Segs(e.oid))
  }

  /** Some entry lies at p or below it. */
  ghost predicate Known(es: seq<Entry>, p: Path) {
    p.Sub? && exists e <- es :: Under(p, PathOfEntry(e))
  }

  /** The last entry registered under the OID of p. */
  function Registered(es: seq<Entry>, p: Path): Option<Entry> {
    if es == [] then None
    else if es[|es| - 1].oid == Oid(p) then Some(es[|es| - 1])
    else Registered(es[..|es| - 1], p)
  }

  /** The step from p towards q. */
  function NextSeg(p: Path, q: Path): Option<string> {
    if q.Top? then None else if q.up == p then Some(q.seg) else NextSeg(p, q.up)
  }

  /** The children of p in order of first appearance: extended by one path. */
  function Grow(order: seq<string>, p: Path, q: Path): seq<string> {
    match NextSeg(p, q)
    case None => order
    case Some(s) => if s in order then order else order + [s]
  }

  function Order(es: seq<Entry>, p: Path): seq<string> {
    if es == [] then [] else Grow(Order(es[..|es| - 1], p), p, PathOfEntry(es[|es| - 1]))
  }

  /** The root segment of a path. */
  function First(p: Path): string
    requires p.Sub?
  {
    if p.up.Top? then p.seg else First(p.up)
  }

  ghost predicate RootedAt(es: seq<Entry>, seg: string) {
    forall e <- es :: PathOfEntry(e).Sub? ==> First(PathOfEntry(e)) == seg
  }

  ghost predicate HasEntry(es: seq<Entry>) {
    exists e <- es :: PathOfEntry(e).Sub?
  }

  // ---- the heap --------------------------------------------------------------------

  class Node {
    const seg: string
    const oid: string
    const parent: Node?
    ghost const at: Path
    var entry: Option<Entry>
    var children: map<string, Node>
    var order: seq<string>   // the keys of children, oldest first

    constructor (seg: string, oid: string, parent: Node?, ghost at: Path)
      ensures this.seg == seg && this.oid == oid && this.parent == parent && this.at == at
      ensures entry == None && children == map[] && order == []
    {
      this.seg, this.oid, this.parent, this.at := seg, oid, parent, at;
      entry, children, order := None, map[], [];
    }
  }

  /** What the fields of one node hold. */
  datatype Cell = Cell(entry: Option<Entry>, kids: map<string, Node>, order: seq<string>)

  ghost function Cells(nodes: map<Path, Node>): map<Path, Cell>
    reads nodes.Values
  {
    map p <- nodes :: Cell(nodes[p].entry, nodes[p].children, nodes[p].order)
  }

  /** Parent links: every node but a root has its parent's node. */
  ghost predicate Parents(nodes: map<Path, Node>) {
    forall p, s :: Sub(p, s) in nodes ==>
      if p.Top? then nodes[Sub(p, s)].parent == null else p in nodes && nodes[Sub(p, s)].parent == nodes[p]
  }

  /** Child links: the dict of p has exactly the nodes one segment below p. */
  ghost predicate Children(nodes: map<Path, Node>, cells: map<Path, Cell>) {
    && cells.Keys == nodes.Keys
    && (forall p, s :: p in nodes && s in cells[p].kids ==> Sub(p, s) in nodes && cells[p].kids[s] == nodes[Sub(p, s)])
    && (forall p, s :: p in nodes && Sub(p, s) in nodes ==> s in cells[p].kids)
  }

  /** Parent and child links agree, and every node carries its own segment and full OID. */
  ghost predicate Linked(nodes: map<Path, Node>, cells: map<Path, Cell>) {
    && (forall p <- nodes :: nodes[p].at == p && p.Sub? && nodes[p].seg == p.seg && nodes[p].oid == Oid(p))
    && Parents(nodes) && Children(nodes, cells)
  }

  /** The paths are those of the entries seen so far and, while the next entry is being entered, those down to cur. */
  ghost predicate Paths(keys: set<Path>, es: seq<Entry>, cur: Path) {
    forall p :: p in keys <==> p.Sub? && (Known(es, p) || Under(p, cur))
  }

  /** Each node's children are in order of first appearance and its entry is the last one registered for it. */
  ghost predicate Filled(cells: map<Path, Cell>, es: seq<Entry>, cur: Path) {
    forall p <- cells :: cells[p].order == Grow(Order(es, p), p, cur) && cells[p].entry == Registered(es, p)
  }

  ghost predicate Holds(nodes: map<Path, Node>, es: seq<Entry>, cur: Path)
    reads nodes.Values
  {
    Linked(nodes, Cells(nodes)) && Paths(nodes.Keys, es, cur) && Filled(Cells(nodes), es, cur)
  }

  // ---- facts about entries -----------------------------------------------------------

  lemma {:induction false} UnderTrans(p: Path, q: Path, r: Path)
    requires Under(p, q) && Under(q, r)
    ensures Under(p, r)
  {
    if q != r {
      UnderTrans(p, q, r.up);
    }
  }

  lemma {:induction false} NextSegIs(p: Path, q: Path, s: string)
    ensures NextSeg(p, q) == Some(s) <==> Under(Sub(p, s), q)
  {
    if q.Sub? {
      NextSegIs(p, q.up, s);
      if q.up == p {
        NoneBelow(p, s);
      }
    }
  }

  function Depth(p: Path): nat {
    if p.Top? then 0 else 1 + Depth(p.up)
  }

  lemma {:induction false} UnderIsHigher(p: Path, q: Path)
    requires Under(p, q)
    ensures Depth(p) <= Depth(q) && (Depth(p) == Depth(q) ==> p == q)
  {
    if p != q {
      UnderIsHigher(p, q.up);
    }
  }

  lemma {:induction false} NoneBelow(p: Path, s: string)
    ensures !Under(Sub(p, s), p)
  {
    if Under(Sub(p, s), p) {
      UnderIsHigher(Sub(p, s), p);
    }
  }

  lemma {:induction false} KnownSplit(rest: seq<Entry>, e: Entry, p: Path)
    ensures Known(rest + [e], p) <==> Known(rest, p) || (p.Sub? && Under(p, PathOfEntry(e)))
  {
  }

  /** The order lists each child of p once, and exactly the children. */
  lemma {:induction false} OrderListsChildren(es: seq<Entry>, p: Path)
    ensures forall i, j :: 0 <= i < j < |Order(es, p)| ==> Order(es, p)[i] != Order(es, p)[j]
    ensures forall s :: s in Order(es, p) <==> Known(es, Sub(p, s))
  {
    if es != [] {
      var e, rest := es[|es| - 1], es[..|es| - 1];
      OrderListsChildren(rest, p);
      assert es == rest + [e];
      forall s
        ensures s in Order(es, p) <==> Known(es, Sub(p, s))
      {
        KnownSplit(rest, e, Sub(p, s));
        NextSegIs(p, PathOfEntry(e), s);
      }
    }
  }

  lemma {:induction false} UnknownIsEmpty(es: seq<Entry>, p: Path)
    requires Canonical(p) && p.Sub? && !Known(es, p)
    ensures Registered(es, p) == None && Order(es, p) == []
  {
    if es != [] {
      var e, rest := es[|es| - 1], es[..|es| - 1];
      assert es == rest + [e];
      KnownSplit(rest, e, p);
      UnknownIsEmpty(rest, p);
      PathOfOid(p);
      if NextSeg(p, PathOfEntry(e)).Some? {
        NextSegIs(p, PathOfEntry(e), NextSeg(p, PathOfEntry(e)).value);
        UnderTrans(p, Sub(p, NextSeg(p, PathOfEntry(e)).value), PathOfEntry(e));
      }
    }
  }

  // ---- one step down the path of an entry --------------------------------------------

  lemma {:induction false} PathsStep(keys: set<Path>, es: seq<Entry>, cur: Path, s: string)
    requires Paths(keys, es, cur)
    ensures Paths(keys + {Sub(cur, s)}, es, Sub(cur, s))
  {
  }

  /** Only the node at cur orders its children differently after the step from cur to a child. */
  lemma {:induction false} GrowStep(es: seq<Entry>, p: Path, cur: Path, s: string)
    ensures p != cur ==> Grow(Order(es, p), p, Sub(cur, s)) == Grow(Order(es, p), p, cur)
    ensures p == cur ==>
      && Grow(Order(es, p), p, cur) == Order(es, p)
      && Grow(Order(es, p), p, Sub(cur, s)) == if Known(es, Sub(p, s)) then Order(es, p) else Order(es, p) + [s]
  {
    OrderListsChildren(es, p);
    if p == cur && NextSeg(p, cur).Some? {
      NextSegIs(p, p, NextSeg(p, p).value);
      NoneBelow(p, NextSeg(p, p).value);
    }
  }

  lemma {:induction false} KnownAbove(es: seq<Entry>, p: Path, s: string)
    requires Known(es, Sub(p, s)) && p.Sub?
    ensures Known(es, p)
  {
    var e :| e in es && Under(Sub(p, s), PathOfEntry(e));
    UnderTrans(p, Sub(p, s), PathOfEntry(e));
  }

  lemma {:induction false} FilledStep(cells: map<Path, Cell>, es: seq<Entry>, cur: Path, s: string)
    requires Filled(cells, es, cur) && Known(es, Sub(cur, s))
    ensures Filled(cells, es, Sub(cur, s))
  {
    hide Known, Grow, Order;
    forall p | p in cells
      ensures cells[p].order == Grow(Order(es, p), p, Sub(cur, s))
    {
      GrowStep(es, p, cur, s);
    }
  }

  /** The node for the next segment is there already. */
  lemma {:induction false} StepInto(nodes: map<Path, Node>, es: seq<Entry>, cur: Path, s: string)
    requires Holds(nodes, es, cur) && Sub(cur, s) in nodes
    ensures Holds(nodes, es, Sub(cur, s))
  {
    hide Linked, Filled, Known;
    PathsStep(nodes.Keys, es, cur, s);
    assert nodes.Keys + {Sub(cur, s)} == nodes.Keys;
    NoneBelow(cur, s);
    FilledStep(Cells(nodes), es, cur, s);
  }

  lemma {:induction false} LinkParent(nodes: map<Path, Node>, up: Path, child: Node)
    requires Parents(nodes) && up in nodes && up.Sub? && child.parent == nodes[up] && Sub(up, child.seg) !in nodes
    ensures Parents(nodes[Sub(up, child.seg) := child])
  {
    NoneBelow(up, child.seg);
  }

  lemma {:induction false} LinkKid(nodes: map<Path, Node>, cells: map<Path, Cell>, up: Path, cell: Cell, child: Node)
    requires Parents(nodes) && Children(nodes, cells) && up in nodes && Sub(up, child.seg) !in nodes
    requires cell.kids == cells[up].kids[child.seg := child]
    ensures Children(nodes[Sub(up, child.seg) := child], cells[up := cell][Sub(up, child.seg) := Cell(None, map[], [])])
  {
    var q := Sub(up, child.seg);
    var nodes', cells' := nodes[q := child], cells[up := cell][q := Cell(None, map[], [])];
    forall p, s | p in nodes' && Sub(p, s) in nodes'
      ensures s in cells'[p].kids
    {
      NoneBelow(p, s);
    }
  }

  /** Linking a new childless node under its parent. */
  lemma {:induction false} LinkChild(nodes: map<Path, Node>, cells: map<Path, Cell>, up: Path, cell: Cell, child: Node)
    requires Linked(nodes, cells) && up in nodes && Sub(up, child.seg) !in nodes
    requires child.oid == Oid(Sub(up, child.seg)) && child.parent == nodes[up] && child.at == Sub(up, child.seg)
    requires cell.kids == cells[up].kids[child.seg := child]
    ensures Linked(nodes[Sub(up, child.seg) := child], cells[up := cell][Sub(up, child.seg) := Cell(None, map[], [])])
  {
    hide Oid, Parents, Children;
    LinkParent(nodes, up, child);
    LinkKid(nodes, cells, up, cell, child);
  }

  lemma {:induction false} FillChild(cells: map<Path, Cell>, es: seq<Entry>, up: Path, cell: Cell, s: string)
    requires Filled(cells, es, up) && up in cells && Canonical(Sub(up, s)) && !Known(es, Sub(up, s))
    requires cell.order == cells[up].order + [s] && cell.entry == cells[up].entry
    ensures Filled(cells[up := cell][Sub(up, s) := Cell(None, map[], [])], es, Sub(up, s))
  {
    hide Known, Order, Registered;
    var q := Sub(up, s);
    UnknownIsEmpty(es, q);
    GrowStep(es, q, q, "");
    forall p | p in cells
      ensures p == up ==> cell.order == Grow(Order(es, p), p, q)
      ensures p != up ==> cells[p].order == Grow(Order(es, p), p, q)
    {
      hide Grow;
      GrowStep(es, p, up, s);
    }
  }

  lemma {:induction false} MissingChild(nodes: map<Path, Node>, cells: map<Path, Cell>, p: Path, s: string)
    requires Linked(nodes, cells) && p in nodes && s !in cells[p].kids
    ensures Sub(p, s) !in nodes
  {
  }

  lemma {:induction false} DistinctNodes(nodes: map<Path, Node>, cells: map<Path, Cell>)
    requires Linked(nodes, cells)
    ensures forall p, q :: p in nodes && q in nodes && nodes[p] == nodes[q] ==> p == q
  {
  }

  lemma {:induction false} UnknownBelow(keys: set<Path>, es: seq<Entry>, cur: Path, s: string)
    requires Paths(keys, es, cur) && Sub(cur, s) !in keys
    ensures !Known(es, Sub(cur, s))
  {
  }

  /** Give the node at cur a new child. */
  method AddChild(ghost nodes: map<Path, Node>, ghost es: seq<Entry>, ghost cur: Path, node: Node, seg: string,
                  path: string)
    returns (child: Node, ghost nodes': map<Path, Node>)
    requires Canonical(Sub(cur, seg)) && path == Oid(Sub(cur, seg))
    requires Holds(nodes, es, cur) && cur in nodes && nodes[cur] == node
    requires seg !in node.children
    modifies node`children, node`order
    ensures fresh(child) && nodes' == nodes[Sub(cur, seg) := child] && node.children == old(node.children)[seg := child]
    ensures Holds(nodes', es, Sub(cur, seg))
  {
    hide Linked, Paths, Filled, Canonical, Oid;
    ghost var cells, q := Cells(nodes), Sub(cur, seg);
    MissingChild(nodes, cells, cur, seg);
    UnknownBelow(nodes.Keys, es, cur, seg);
    DistinctNodes(nodes, cells);
    child := new Node(seg, path, node, q);
    node.children := node.children[seg := child];
    node.order := node.order + [seg];
    nodes' := nodes[q := child];
    ghost var cell := Cell(node.entry, node.children, node.order);
    LinkChild(nodes, cells, cur, cell, child);
    FillChild(cells, es, cur, cell, seg);
    PathsStep(nodes.Keys, es, cur, seg);
    assert nodes'.Keys == nodes.Keys + {q};
    assert Cells(nodes') == cells[cur := cell][q := Cell(None, map[], [])];
  }

  // ---- the whole loop ----------------------------------------------------------------

  /** The entry counts once its path has been walked to the end. */
  lemma {:induction false} EntryCounts(es: seq<Entry>, e: Entry, p: Path)
    ensures Known(es + [e], p) <==> p.Sub? && (Known(es, p) || Under(p, PathOfEntry(e)))
    ensures Order(es + [e], p) == Grow(Order(es, p), p, PathOfEntry(e))
    ensures Registered(es + [e], p) == if e.oid == Oid(p) then Some(e) else Registered(es, p)
  {
    KnownSplit(es, e, p);
    assert (es + [e])[..|es + [e]| - 1] == es;
  }

  lemma {:induction false} PathsCount(keys: set<Path>, es: seq<Entry>, e: Entry)
    requires Paths(keys, es, PathOfEntry(e))
    ensures Paths(keys, es + [e], Top)
  {
    hide Known;
    forall p
      ensures p in keys <==> p.Sub? && (Known(es + [e], p) || Under(p, Top))
    {
      EntryCounts(es, e, p);
    }
  }

  lemma {:induction false} CellsCount(cells: map<Path, Cell>, es: seq<Entry>, e: Entry)
    requires Filled(cells, es, PathOfEntry(e)) && forall p <- cells :: Canonical(p)
    ensures var cur := PathOfEntry(e);
      Filled(if cur in cells && Oid(cur) == e.oid then cells[cur := cells[cur].(entry := Some(e))] else cells,
             es + [e], Top)
  {
    var cur := PathOfEntry(e);
    forall p | p in cells
      ensures cells[p].order == Grow(Order(es + [e], p), p, Top)
      ensures Registered(es + [e], p) == if p == cur && Oid(cur) == e.oid then Some(e) else cells[p].entry
    {
      hide Order, Registered, Known;
      EntryCounts(es, e, p);
      PathOfOid(p);
    }
  }

  /** Store the entry in the node reached, if that node has its very OID. */
  method Record(ghost nodes: map<Path, Node>, ghost es: seq<Entry>, e: Entry, node: Node?)
    requires Holds(nodes, es, PathOfEntry(e)) && forall p <- nodes :: Canonical(p)
    requires node != null ==> node.at in nodes && node == nodes[node.at]
    requires PathOfEntry(e) in nodes ==> node == nodes[PathOfEntry(e)]
    modifies if node == null then {} else {node}
    ensures Holds(nodes, es + [e], Top)
  {
    hide Linked, Filled, Paths, Canonical, Oid;
    ghost var cur, cells := PathOfEntry(e), Cells(nodes);
    DistinctNodes(nodes, cells);
    NodeOid(nodes, cells);
    PathsCount(nodes.Keys, es, e);
    CellsCount(cells, es, e);
    if node != null {
      PathOfOid(node.at);
    }
    if node != null && node.oid == e.oid {
      node.entry := Some(e);
      assert Cells(nodes) == cells[cur := cells[cur].(entry := Some(e))];
      LinkedIgnoresEntry(nodes, cells, Cells(nodes));
    } else {
      assert Cells(nodes) == cells;
    }
  }

  lemma {:induction false} NodeOid(nodes: map<Path, Node>, cells: map<Path, Cell>)
    requires Linked(nodes, cells)
    ensures forall p <- nodes :: nodes[p].oid == Oid(p) && nodes[p].at == p
  {
  }

  lemma {:induction false} LinkedIgnoresEntry(nodes: map<Path, Node>, cells: map<Path, Cell>, cells': map<Path, Cell>)
    requires Linked(nodes, cells) && cells'.Keys == cells.Keys
    requires forall p <- cells :: cells'[p].kids == cells[p].kids
    ensures Linked(nodes, cells')
  {
  }

  lemma {:induction false} RootNodeLinks(root: Node)
    requires root.at == Sub(Top, root.seg) && root.oid == Oid(root.at) && root.parent == null
    ensures Linked(map[root.at := root], map[root.at := Cell(None, map[], [])])
  {
  }

  /** The first path of all opens the tree. */
  lemma {:induction false} RootNodeFills(es: seq<Entry>, s: string)
    requires !HasEntry(es) && Canonical(Sub(Top, s))
    ensures Paths({Sub(Top, s)}, es, Sub(Top, s))
    ensures Filled(map[Sub(Top, s) := Cell(None, map[], [])], es, Sub(Top, s))
  {
    forall p: Path | p.Sub?
      ensures !Known(es, p)
    {
      forall e | e in es
        ensures !Under(p, PathOfEntry(e))
      {
        assert PathOfEntry(e).Top?;
      }
    }
    UnknownIsEmpty(es, Sub(Top, s));
    GrowStep(es, Sub(Top, s), Sub(Top, s), "");
  }

  lemma {:induction false} PathOfPrefix(segs: seq<string>, i: nat)
    requires i < |segs|
    ensures PathOf(segs[..i + 1]) == Sub(PathOf(segs[..i]), segs[i])
    ensures First(PathOf(segs[..i + 1])) == segs[0]
  {
    assert segs[..i + 1][..i] == segs[..i];
    if i > 0 {
      PathOfPrefix(segs, i - 1);
    } else {
      assert segs[..0] == [];
    }
  }

  lemma {:induction false} HasEntrySplit(es: seq<Entry>, e: Entry)
    ensures HasEntry(es + [e]) <==> HasEntry(es) || Segs(e.oid) != []
  {
    assert e in es + [e];
    assert PathOfEntry(e).Sub? <==> Segs(e.oid) != [];
    forall d | d in es
      ensures d in es + [e]
    {
    }
  }

  /** What the loops keep: every node made so far is new, canonical and under the one root. */
  ghost predicate OneRoot(nodes: map<Path, Node>, root: Node?) {
    && (root == null <==> nodes == map[])
    && (root != null ==> Sub(Top, root.seg) in nodes && nodes[Sub(Top, root.seg)] == root)
    && (forall p <- nodes :: Canonical(p) && p.Sub? && root != null && First(p) == root.seg)
  }

  /** The first segment: the root, made if this is the first path of all. */
  method EnterRoot(ghost nodes: map<Path, Node>, ghost es: seq<Entry>, root: Node?, seg: string, path: string)
    returns (root': Node, ghost nodes': map<Path, Node>)
    requires OneRoot(nodes, root) && Holds(nodes, es, Top) && (HasEntry(es) <==> root != null)
    requires Canonical(Sub(Top, seg)) && path == Oid(Sub(Top, seg)) && (root != null ==> root.seg == seg)
    ensures OneRoot(nodes', root') && Holds(nodes', es, Sub(Top, seg)) && root'.seg == seg
    ensures if root == null then fresh(root') && nodes' == map[Sub(Top, seg) := root']
      else root' == root && nodes' == nodes
  {
    hide Linked, Paths, Filled;
    if root == null {
      root' := new Node(seg, path, null, Sub(Top, seg));
      nodes' := map[Sub(Top, seg) := root'];
      RootNodeLinks(root');
      RootNodeFills(es, seg);
      assert nodes'.Keys == {Sub(Top, seg)};
      assert Cells(nodes') == map[Sub(Top, seg) := Cell(None, map[], [])];
    } else {
      root', nodes' := root, nodes;
      StepInto(nodes, es, Top, seg);
    }
  }

  /** A further segment: the child, made if it is missing. */
  method EnterChild(ghost nodes: map<Path, Node>, ghost es: seq<Entry>, ghost root: Node, ghost cur: Path,
                    node: Node, seg: string, path: string)
    returns (child: Node, ghost nodes': map<Path, Node>)
    requires OneRoot(nodes, root) && Holds(nodes, es, cur) && cur in nodes && node == nodes[cur]
    requires Canonical(Sub(cur, seg)) && path == Oid(Sub(cur, seg))
    modifies node
    ensures OneRoot(nodes', root) && Holds(nodes', es, Sub(cur, seg))
    ensures Sub(cur, seg) in nodes' && child == nodes'[Sub(cur, seg)]
    ensures forall n <- nodes'.Values :: n in nodes.Values || fresh(n)
  {
    hide Linked, Paths, Filled;
    if seg !in node.children {
      var _, linked := AddChild(nodes, es, cur, node, seg, path);
      nodes' := linked;
    } else {
      nodes' := nodes;
      ChildLinks(nodes, Cells(nodes), cur, seg);
      StepInto(nodes, es, cur, seg);
    }
    child := node.children[seg];
    ChildLinks(nodes', Cells(nodes'), cur, seg);
  }

  lemma {:induction false} ChildLinks(nodes: map<Path, Node>, cells: map<Path, Cell>, p: Path, s: string)
    requires Linked(nodes, cells) && p in nodes && s in cells[p].kids
    ensures Sub(p, s) in nodes && cells[p].kids[s] == nodes[Sub(p, s)]
  {
  }

  /** Walk from the root along one entry's segments, making the nodes that are missing. */
  method EnterPath(ghost nodes: map<Path, Node>, ghost es: seq<Entry>, root: Node?, segs: seq<string>)
    returns (foreign: bool, root': Node?, node: Node?, ghost nodes': map<Path, Node>)
    requires OneRoot(nodes, root) && Holds(nodes, es, Top) && (HasEntry(es) <==> root != null)
    requires forall i :: 0 <= i < |segs| ==> segs[i] != [] && '/' !in segs[i]
    modifies nodes.Values
    ensures foreign <==> root != null && segs != [] && segs[0] != root.seg
    ensures !foreign ==> OneRoot(nodes', root') && Holds(nodes', es, PathOf(segs))
    ensures !foreign ==> if segs == [] then root' == root else root' != null && root'.seg == segs[0]
    ensures !foreign ==> if segs == [] then node == root' else PathOf(segs) in nodes' && node == nodes'[PathOf(segs)]
    ensures forall n <- nodes'.Values :: n in nodes.Values || fresh(n)
  {
    hide Holds, Known, Canonical, Grow, First, HasEntry, OneRoot;
    root', node, nodes', foreign := root, root, nodes, false;
    var path := "";
    for i := 0 to |segs|
      invariant path == Oid(PathOf(segs[..i]))
      invariant OneRoot(nodes', root') && Holds(nodes', es, PathOf(segs[..i]))
      invariant i == 0 ==> root' == root == node && nodes' == nodes
      invariant i > 0 ==> (root != null ==> segs[0] == root.seg) && root' != null && root'.seg == segs[0]
                          && PathOf(segs[..i]) in nodes' && node == nodes'[PathOf(segs[..i])]
      invariant forall n <- nodes'.Values :: n in nodes.Values || fresh(n)
    {
      var seg := segs[i];
      PathOfPrefix(segs, i);
      PathIsCanonical(segs[..i + 1]);
      path := path + "/" + seg;
      if i == 0 {
        if root' != null && root'.seg != seg {
          foreign := true;
          return;
        }
        root', nodes' := EnterRoot(nodes', es, root', seg, path);
        node := root';
        RootIsThere(nodes', root');
      } else {
        assert node in nodes'.Values;
        node, nodes' := EnterChild(nodes', es, root', PathOf(segs[..i]), node, seg, path);
      }
    }
    assert segs[..|segs|] == segs;
  }

  lemma {:induction false} RootIsThere(nodes: map<Path, Node>, root: Node)
    requires OneRoot(nodes, root)
    ensures Sub(Top, root.seg) in nodes && nodes[Sub(Top, root.seg)] == root
  {
  }

  /** The tree of the entries; `nodes` names every node by its path.  It is refused when two entries have different
      root segments, or when there is no entry at all. */
  method BuildTree(entries: seq<Entry>) returns (r: Result<Node, BuildError>, ghost nodes: map<Path, Node>)
    ensures r.Ok? <==> HasEntry(entries) && exists s :: RootedAt(entries, s)
    ensures r == Err(NoEntries) ==> !HasEntry(entries)
    ensures r.Ok? ==> Holds(nodes, entries, Top) && OneRoot(nodes, r.value) && RootedAt(entries, r.value.seg)
    ensures r.Ok? ==> forall n <- nodes.Values :: fresh(n)
  {
    hide Holds, Canonical, PathOf, First, OneRoot;
    var root: Node? := null;
    nodes := map[];
    NoNodes();
    for k := 0 to |entries|
      invariant OneRoot(nodes, root) && Holds(nodes, entries[..k], Top)
      invariant HasEntry(entries[..k]) <==> root != null
      invariant root != null ==> RootedAt(entries[..k], root.seg)
      invariant forall n <- nodes.Values :: fresh(n)
    {
      var e := entries[k];
      ghost var es, before := entries[..k], root;
      assert entries[..k + 1] == es + [e];
      HasEntrySplit(es, e);
      var foreign, root', node, nodes' := EnterPath(nodes, es, root, Segs(e.oid));
      if foreign {
        TwoRoots(entries, k, root.seg);
        return Err(ForeignRoot), nodes;
      }
      root, nodes := root', nodes';
      StillRooted(es, e, before, root);
      RecordReady(nodes, es, root, node, Segs(e.oid));
      Record(nodes, es, e, node);
    }
    assert entries[..|entries|] == entries;
    if root == null {
      return Err(NoEntries), nodes;
    }
    r := Ok(root);
  }

  lemma {:induction false} NoNodes()
    ensures OneRoot(map[], null) && Holds(map[], [], Top) && !HasEntry([])
  {
  }

  lemma {:induction false} RecordReady(nodes: map<Path, Node>, es: seq<Entry>, root: Node?, node: Node?,
                                       segs: seq<string>)
    requires OneRoot(nodes, root) && Holds(nodes, es, PathOf(segs))
    requires if segs == [] then node == root else PathOf(segs) in nodes && node == nodes[PathOf(segs)]
    ensures node != null ==> node.at in nodes && node == nodes[node.at]
    ensures PathOf(segs) in nodes ==> node == nodes[PathOf(segs)]
    ensures forall p <- nodes :: Canonical(p)
  {
    hide Paths, Filled;
    NodeOid(nodes, Cells(nodes));
  }

  lemma {:induction false} StillRooted(es: seq<Entry>, e: Entry, before: Node?, root: Node?)
    requires HasEntry(es) <==> before != null
    requires before != null ==> RootedAt(es, before.seg) && root != null && root.seg == before.seg
    requires Segs(e.oid) == [] ==> root == before
    requires Segs(e.oid) != [] ==> root != null && root.seg == Segs(e.oid)[0]
    ensures root != null ==> RootedAt(es + [e], root.seg)
  {
    if Segs(e.oid) != [] {
      var segs := Segs(e.oid);
      assert segs[..|segs|] == segs;
      PathOfPrefix(segs, |segs| - 1);
    }
  }

  lemma {:induction false} TwoRoots(entries: seq<Entry>, k: nat, seg: string)
    requires k < |entries| && HasEntry(entries[..k]) && RootedAt(entries[..k], seg)
    requires Segs(entries[k].oid) != [] && Segs(entries[k].oid)[0] != seg
    ensures !exists s :: RootedAt(entries, s)
  {
    var segs := Segs(entries[k].oid);
    assert segs[..|segs|] == segs;
    PathOfPrefix(segs, |segs| - 1);
    var d :| d in entries[..k] && PathOfEntry(d).Sub?;
    assert d in entries && entries[k] in entries;
  }

  /** Looking up a path's entry gives the last one registered under its OID. */
  lemma {:induction false} RegisteredIsLast(es: seq<Entry>, p: Path)
    ensures Registered(es, p).None? <==> forall e <- es :: e.oid != Oid(p)
    ensures Registered(es, p).Some? ==>
      exists i :: 0 <= i < |es| && es[i] == Registered(es, p).value && es[i].oid == Oid(p)
                  && forall j :: i < j < |es| ==> es[j].oid != Oid(p)
  {
    if es != [] {
      var e, rest := es[|es| - 1], es[..|es| - 1];
      hide Oid;
      assert es == rest + [e];
      RegisteredIsLast(rest, p);
      if e.oid == Oid(p) {
        assert es[|es| - 1] == e && e in es;
      } else if Registered(rest, p).Some? {
        var i :| 0 <= i < |rest| && rest[i] == Registered(rest, p).value && rest[i].oid == Oid(p)
                 && forall j :: i < j < |rest| ==> rest[j].oid != Oid(p);
        assert es[i] == rest[i] && es[i] in es;
        assert forall j :: i < j < |es| ==> es[j].oid != Oid(p);
      }
    }
  }

  /** Entries spelled the canonical way: no empty segment, no trailing "/". */
  ghost predicate Spelled(es: seq<Entry>) {
    forall e <- es :: e.oid == Oid(PathOfEntry(e))
  }

  /** The nodes without an entry are exactly the proper prefixes nothing is registered under. */
  lemma {:induction false} EntrylessNodesArePrefixes(es: seq<Entry>, p: Path)
    requires Spelled(es) && Canonical(p) && Known(es, p)
    ensures Registered(es, p).None? <==> forall e <- es :: PathOfEntry(e) != p
    ensures Registered(es, p).None? ==> exists e <- es :: Under(p, PathOfEntry(e)) && p != PathOfEntry(e)
  {
    hide Oid;
    RegisteredIsLast(es, p);
    PathOfOid(p);
    forall e | e in es
      ensures e.oid == Oid(p) <==> PathOfEntry(e) == p
    {
    }
    var e :| e in es && Under(p, PathOfEntry(e));
  }
}
