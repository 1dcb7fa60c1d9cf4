/** Following attributes in the tree: which instance every attribute chain should name, and what its OID erases to. */
module CfgAccess {
  import opened Common
  import opened CfgNames
  import opened CfgEmit
  import opened CfgEngine

  /** Nodes carry their own segment, without "/" or ":", and sit directly below their parent. */
  ghost predicate Proper(t: Tree) {
    && t.path.Sub? && t.path.seg == t.seg && Segment(t.seg)
    && forall i :: 0 <= i < |t.kids| ==> t.kids[i].path == Sub(t.path, t.kids[i].seg) && Proper(t.kids[i])
  }

  /** What a successful emission has checked of the classes below t. */
  ghost predicate Checked(t: Tree, listed: Option<seq<string>>)
    decreases t, 1, 0
  {
    SelfMembers(t.entry).Ok? && Items(t, listed).Ok? && CheckedKids(t, Items(t, listed).value)
  }

  ghost predicate CheckedKids(t: Tree, items: seq<Tree>)
    requires forall x <- items :: x in t.kids
    decreases t, 0, |items|
  {
    items != [] ==>
      && MemberFor(items[0], t.path).Ok?
      && (forall j :: 1 <= j < |items| ==> AttrName(items[j].seg) != AttrName(items[0].seg))
      && (KindOf(items[0]).Knob? || (KidIsSmaller(t, items, 0); Checked(items[0], None)))
      && CheckedKids(t, items[1..])
  }

  lemma {:induction false} MemberKindOnly(kid: Tree, r1: Path, r2: Path)
    ensures MemberFor(kid, r1).Ok? <==> MemberFor(kid, r2).Ok?
  {
  }

  lemma {:induction false} EmittedIsChecked(t: Tree, root: Path, init: Init, listed: Option<seq<string>>, out: Out)
    requires EmitClass(t, root, init, listed, out).Ok?
    ensures Checked(t, listed)
    decreases t, 1, 0
  {
    hide ClassName, Oid, EmitKids, CheckedKids;
    var self, items := SelfMembers(t.entry).value, Items(t, listed).value;
    var named := Out(out.blocks, if self == [] then out.used else out.used + {"SelfKnob"},
                     out.cnames[ClassName(t.path, root) := Oid(t.path)]);
    EmittedKidsAreChecked(t, items, root, init, named, {});
  }

  lemma {:induction false} EmittedKidsAreChecked(t: Tree, items: seq<Tree>, root: Path, init: Init, out: Out,
                                                 attrs: set<string>)
    requires forall x <- items :: x in t.kids
    requires EmitKids(t, items, root, init, out, attrs).Ok?
    ensures CheckedKids(t, items)
    ensures forall j :: 0 <= j < |items| ==> AttrName(items[j].seg) !in attrs
    decreases t, 0, |items|
  {
    hide EmitClass, AttrName, MemberFor, KindOf, Checked;
    if items != [] {
      KidIsSmaller(t, items, 0);
      var kid := items[0];
      MemberKindOnly(kid, root, t.path);
      var used := out.(used := out.used + {EngineName(MemberFor(kid, root).value)});
      var below := if KindOf(kid).Knob? then used else EmitClass(kid, root, init, None, used).value;
      if !KindOf(kid).Knob? {
        EmittedIsChecked(kid, root, init, None, used);
      }
      EmittedKidsAreChecked(t, items[1..], root, init, below, attrs + {AttrName(kid.seg)});
      assert forall j :: 1 <= j < |items| ==> items[j] == items[1..][j - 1];
    }
  }

  // ---- emitted children --------------------------------------------------------------------

  /** The node carries a value of its own. */
  predicate Carries(t: Tree) {
    t.entry.Some? && t.entry.value.typ != "none"
  }

  /** The children of an emitted class have different attributes, and are themselves emitted. */
  lemma {:induction false} ChildrenAreChecked(t: Tree, items: seq<Tree>)
    requires (forall x <- items :: x in t.kids) && CheckedKids(t, items)
    ensures forall i, j :: 0 <= i < j < |items| ==> AttrName(items[i].seg) != AttrName(items[j].seg)
    ensures forall i :: 0 <= i < |items| ==>
      (KindOf(items[i]).Knob? || Checked(items[i], None)) && MemberFor(items[i], t.path).Ok?
    decreases |items|
  {
    hide AttrName, KindOf, Checked, MemberFor;
    if items != [] {
      KidIsSmaller(t, items, 0);
      ChildrenAreChecked(t, items[1..]);
      assert forall j :: 1 <= j < |items| ==> items[j] == items[1..][j - 1];
    }
  }

  lemma {:induction false} NamesAreUsable(t: Tree, listed: Option<seq<string>>, items: seq<Tree>)
    requires Proper(t) && Items(t, listed) == Ok(items)
    ensures forall i :: 0 <= i < |items| ==> AttrName(items[i].seg) != "value"
  {
    hide AttrName;
    forall i | 0 <= i < |items|
      ensures AttrName(items[i].seg) != "value"
    {
      assert items[i] in items && items[i] in t.kids;
      AttrNameIsUsable(items[i].seg);
      assert RESERVED[3] == "value";
    }
  }

  // ---- chains of members -------------------------------------------------------------------

  /** The node that segments lead to in the emitted part of the tree. */
  function Reach(t: Tree, listed: Option<seq<string>>, segs: seq<string>): Option<Tree>
    decreases |segs|
  {
    if segs == [] then Some(t)
    else if Items(t, listed).Err? then None
    else match Find(Items(t, listed).value, segs[0])
      case None => None
      case Some(kid) => Reach(kid, None, segs[1..])
  }

  /** The instance OID of that node: a collection level is named by its key, a singleton has the empty name. */
  function InstanceOid(t: Tree, listed: Option<seq<string>>, segs: seq<string>, keys: seq<string>, oid: string): string
    requires |keys| == |segs| && Reach(t, listed, segs).Some?
    decreases |segs|
  {
    if segs == [] then oid else
    var kid := Find(Items(t, listed).value, segs[0]).value;
    InstanceOid(kid, None, segs[1..], keys[1..],
                oid + "/" + segs[0] + ":" + (if KindOf(kid).Collection? then keys[0] else ""))
  }

  function Steps(segs: seq<string>, keys: seq<string>): seq<Step>
    requires |keys| == |segs|
  {
    if segs == [] then [] else [Step(AttrName(segs[0]), keys[0])] + Steps(segs[1..], keys[1..])
  }

  lemma {:induction false} FindIndex(kids: seq<Tree>, seg: string) returns (i: nat)
    requires Find(kids, seg).Some?
    ensures i < |kids| && kids[i] == Find(kids, seg).value
  {
    if kids[0].seg == seg { return 0; }
    i := FindIndex(kids[1..], seg);
    i := i + 1;
  }

  function ChildOid(oid: string, kid: Tree, key: string): string {
    oid + "/" + kid.seg + ":" + (if KindOf(kid).Collection? then key else "")
  }

  // ---- following attributes ------------------------------------------------------------------

  /** Where an attribute chain leads in the tree: to a node's instance, or to the value of one. */
  datatype Place = AtNode(t: Tree, oid: string) | AtValue(t: Tree, oid: string)

  function ChildAt(items: seq<Tree>, attr: string): (r: Option<Tree>)
    ensures r.Some? ==> r.value in items && AttrName(r.value.seg) == attr
    ensures r.None? ==> forall kid <- items :: AttrName(kid.seg) != attr
  {
    if items == [] then None
    else if AttrName(items[0].seg) == attr then Some(items[0])
    else ChildAt(items[1..], attr)
  }

  /** Attributes are those of the emitted children, and `value` on nodes that carry one. A knob has no further ones. */
  function Follow(t: Tree, listed: Option<seq<string>>, oid: string, steps: seq<Step>): Option<Place>
    decreases |steps|
  {
    if steps == [] then Some(AtNode(t, oid))
    else if Items(t, listed).Err? then None
    else if steps[0].attr == "value" then if Carries(t) && |steps| == 1 then Some(AtValue(t, oid)) else None
    else match ChildAt(Items(t, listed).value, steps[0].attr)
      case None => None
      case Some(kid) =>
        var at := ChildOid(oid, kid, steps[0].key);
        if !KindOf(kid).Knob? then Follow(kid, None, at, steps[1..])
        else if |steps| == 1 then Some(AtValue(kid, at)) else None
  }

  lemma {:induction false} ChildAtAttr(items: seq<Tree>, i: nat)
    requires forall i, j :: 0 <= i < j < |items| ==> AttrName(items[i].seg) != AttrName(items[j].seg)
    requires i < |items|
    ensures ChildAt(items, AttrName(items[i].seg)) == Some(items[i])
  {
    hide AttrName;
    if i > 0 {
      assert items[1..][i - 1] == items[i];
      ChildAtAttr(items[1..], i - 1);
    }
  }

  /** One step along the segments of emitted nodes. */
  lemma {:induction false} FollowStep(t: Tree, listed: Option<seq<string>>, oid: string, i: nat, key: string,
                                      rest: seq<Step>)
    requires Checked(t, listed) && Proper(t) && i < |Items(t, listed).value|
    ensures var kid := Items(t, listed).value[i];
      Follow(t, listed, oid, [Step(AttrName(kid.seg), key)] + rest)
      == if !KindOf(kid).Knob? then Follow(kid, None, ChildOid(oid, kid, key), rest)
         else if rest == [] then Some(AtValue(kid, ChildOid(oid, kid, key))) else None
  {
    hide AttrName, Proper, CheckedKids, KindOf, ChildAt;
    var items := Items(t, listed).value;
    var steps := [Step(AttrName(items[i].seg), key)] + rest;
    ChildrenAreChecked(t, items);
    ChildAtAttr(items, i);
    NamesAreUsable(t, listed, items);
    assert steps[1..] == rest;
  }

  /** The attributes of the nodes on a path lead to its end, as the node's instance or, for a knob, its value. */
  lemma {:induction false} FollowReaches(t: Tree, listed: Option<seq<string>>, segs: seq<string>, keys: seq<string>,
                                         oid: string)
    requires Checked(t, listed) && Proper(t) && |keys| == |segs| && Reach(t, listed, segs).Some?
    ensures var x, at := Reach(t, listed, segs).value, InstanceOid(t, listed, segs, keys, oid);
      Follow(t, listed, oid, Steps(segs, keys))
      == Some(if segs != [] && KindOf(x).Knob? then AtValue(x, at) else AtNode(x, at))
    decreases |segs|
  {
    hide Checked, AttrName, Proper, KindOf;
    if segs != [] {
      var items := Items(t, listed).value;
      assert Items(t, listed) == Ok(items);
      var i := FindIndex(items, segs[0]);
      var kid := items[i];
      KidFacts(t, listed, items, i);
      FollowStep(t, listed, oid, i, keys[0], Steps(segs[1..], keys[1..]));
      if KindOf(kid).Knob? {
        KnobHasNoKids(kid, segs[1..]);
      } else {
        FollowReaches(kid, None, segs[1..], keys[1..], ChildOid(oid, kid, keys[0]));
      }
    }
  }

  /** One more attribute, from a node that is reached, finds its own value exactly when it carries one. */
  lemma {:induction false} FollowValue(t: Tree, listed: Option<seq<string>>, segs: seq<string>, keys: seq<string>,
                                       oid: string)
    requires Checked(t, listed) && Proper(t) && |keys| == |segs| && Reach(t, listed, segs).Some?
    requires segs == [] || !KindOf(Reach(t, listed, segs).value).Knob?
    ensures var x, at := Reach(t, listed, segs).value, InstanceOid(t, listed, segs, keys, oid);
      Follow(t, listed, oid, Steps(segs, keys) + [Step("value", "")])
      == if Carries(x) then Some(AtValue(x, at)) else None
    decreases |segs|
  {
    hide AttrName, Proper, KindOf, CheckedKids;
    var last := [Step("value", "")];
    if segs == [] {
      assert Steps(segs, keys) + last == last;
    } else {
      var items := Items(t, listed).value;
      assert Items(t, listed) == Ok(items);
      var i := FindIndex(items, segs[0]);
      var kid := items[i];
      KidFacts(t, listed, items, i);
      var rest := Steps(segs[1..], keys[1..]);
      assert Steps(segs, keys) + last == [Step(AttrName(kid.seg), keys[0])] + (rest + last);
      FollowStep(t, listed, oid, i, keys[0], rest + last);
      if KindOf(kid).Knob? {
        KnobHasNoKids(kid, segs[1..]);
      } else {
        FollowValue(kid, None, segs[1..], keys[1..], ChildOid(oid, kid, keys[0]));
      }
    }
  }

  lemma {:induction false} KnobHasNoKids(t: Tree, segs: seq<string>)
    requires KindOf(t).Knob? && Reach(t, None, segs).Some?
    ensures segs == [] && Carries(t)
  {
  }

  lemma {:induction false} KidFacts(t: Tree, listed: Option<seq<string>>, items: seq<Tree>, i: nat)
    requires Checked(t, listed) && Proper(t) && Items(t, listed) == Ok(items)
    requires i < |items|
    ensures Proper(items[i]) && items[i].path == Sub(t.path, items[i].seg)
    ensures !KindOf(items[i]).Knob? ==> Checked(items[i], None)
  {
    hide AttrName, KindOf, CheckedKids;
    ChildrenAreChecked(t, items);
    assert items[i] in items && items[i] in t.kids;
  }

  /** The instance OID of an emitted node erases to its CM OID, for all instance names. */
  lemma {:induction false} InstanceErases(t: Tree, listed: Option<seq<string>>, segs: seq<string>, keys: seq<string>,
                                          oid: string)
    requires Proper(t) && |keys| == |segs| && Reach(t, listed, segs).Some?
    requires forall k <- keys :: '/' !in k
    requires Erase(oid) == Oid(t.path)
    ensures Erase(InstanceOid(t, listed, segs, keys, oid)) == Oid(Reach(t, listed, segs).value.path)
    decreases |segs|
  {
    if segs != [] {
      var items := Items(t, listed).value;
      var i := FindIndex(items, segs[0]);
      var kid := items[i];
      assert kid in items && kid in t.kids;
      var key := if KindOf(kid).Collection? then keys[0] else "";
      EraseChild(oid, segs[0], key);
      InstanceErases(kid, None, segs[1..], keys[1..], oid + "/" + segs[0] + ":" + key);
    }
  }
}
