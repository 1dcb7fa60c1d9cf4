/** What the scenario walker promises, for every syntax tree. */
module ScenarioTheorems {
  import opened Common
  import opened Scenario

  // ---- step texts ----

  function TextOf(c: Call): seq<string> {
    if (c.kind.Step? || c.kind.Push?) && c.text.Some? then [c.text.value] else []
  }

  function TextsOf(calls: seq<Call>): seq<string> {
    if calls == [] then [] else TextsOf(calls[..|calls| - 1]) + TextOf(calls[|calls| - 1])
  }

  /** Every literal step text of a body, wherever it stands, in source order. */
  function Texts(body: seq<Stmt>): seq<string>
    decreases body, 1
  {
    if body == [] then [] else TextsIn(body[0]) + Texts(body[1..])
  }

  function TextsIn(s: Stmt): seq<string>
    decreases s, 0
  {
    TextsOf(s.calls) + (if s.Leaf? then [] else Texts(s.body)) + if s.If? || s.Loop? then Texts(s.orelse) else []
  }

  /** How many of them stand in the headers of compound statements, where the walker does not look. */
  function Hidden(body: seq<Stmt>): nat
    decreases body, 1
  {
    if body == [] then 0 else HiddenIn(body[0]) + Hidden(body[1..])
  }

  function HiddenIn(s: Stmt): nat
    decreases s, 0
  {
    if s.Leaf? then 0 else |TextsOf(s.calls)| + Hidden(s.body) + if s.If? || s.Loop? then Hidden(s.orelse) else 0
  }

  /** The step texts among the items, headings aside. */
  function Said(items: seq<Item>): seq<string> {
    if items == [] then []
    else Said(items[..|items| - 1]) + if items[|items| - 1].Say? then [items[|items| - 1].text] else []
  }

  lemma {:induction false} SaidConcat(a: seq<Item>, b: seq<Item>)
    ensures Said(a + b) == Said(a) + Said(b)
  {
    if b == [] {
      assert a + b == a;
    } else {
      var rest, last := b[..|b| - 1], b[|b| - 1];
      assert (a + b)[..|a + b| - 1] == a + rest && (a + b)[|a + b| - 1] == last;
      SaidConcat(a, rest);
      var end := if last.Say? then [last.text] else [];
      assert Said(a + b) == Said(a) + Said(rest) + end;
      assert Said(b) == Said(rest) + end;
    }
  }

  lemma {:induction false} SaidLeaf(calls: seq<Call>, d: nat)
    ensures Said(LeafItems(calls, d)) == TextsOf(calls)
  {
    if calls != [] {
      var n := |calls| - 1;
      SaidLeaf(calls[..n], d);
      SaidConcat(LeafItems(calls[..n], d), ItemsOf(calls[n], d));
      SaidOne(calls[n], d);
    }
  }

  lemma {:induction false} SaidOne(c: Call, d: nat)
    ensures Said(ItemsOf(c, d)) == TextOf(c)
  {
    if ItemsOf(c, d) != [] { assert ItemsOf(c, d)[..0] == []; }
  }

  /** The texts shown are a subsequence: all but the hidden ones. */
  lemma {:induction false} SaidCounts(body: seq<Stmt>, d: nat)
    ensures |Said(Flat(body, d))| + Hidden(body) == |Texts(body)|
    ensures Hidden(body) == 0 ==> Said(Flat(body, d)) == Texts(body)
    decreases body, 2
  {
    hide HiddenIn, FlatStmt, TextsIn, Said;
    assert Said([]) == [] by { SaidNothing(); }
    if body != [] {
      SaidConcat(FlatStmt(body[0], d), Flat(body[1..], d));
      SaidCountsIn(body[0], d);
      SaidCounts(body[1..], d);
    }
  }

  lemma {:induction false} SaidNothing()
    ensures Said([]) == []
  {
  }

  lemma {:induction false} SaidCountsIn(s: Stmt, d: nat)
    ensures |Said(FlatStmt(s, d))| + HiddenIn(s) == |TextsIn(s)|
    ensures HiddenIn(s) == 0 ==> Said(FlatStmt(s, d)) == TextsIn(s)
    decreases s, 1
  {
    hide Said, Flat, FlatConstruct, Texts, Hidden, TextsOf;
    match s
    case Leaf(calls) => SaidLeaf(calls, d);
    case If(_, _, _, _, _, _) => SaidCountsIf(s, d);
    case Loop(_, heading, body, orelse) =>
      SaidConcat(FlatConstruct(body, d, heading), Flat(orelse, d));
      SaidCountsConstruct(body, d, heading);
      SaidCounts(orelse, d);
      assert |TextsOf(s.calls)| == 0 ==> TextsOf(s.calls) + Texts(body) + Texts(orelse) == Texts(body) + Texts(orelse);
    case Group(_, body) =>
      SaidCounts(body, d);
      assert |TextsOf(s.calls)| == 0 ==> TextsOf(s.calls) + Texts(body) + [] == Texts(body);
  }

  lemma {:induction false} SaidCountsIf(s: Stmt, d: nat)
    requires s.If?
    ensures |Said(FlatIf(s, d))| + HiddenIn(s) == |TextsIn(s)|
    ensures HiddenIn(s) == 0 ==> Said(FlatIf(s, d)) == TextsIn(s)
    decreases s, 0
  {
    hide Said, FlatConstruct, TextsOf, HiddenIn, TextsIn, Hidden, Texts;
    IfTexts(s);
    SaidNothing();
    var h := "If " + s.test + ":";
    SaidCountsConstruct(s.body, d, h);
    if s.orelse == [] {
      SaidConcat(FlatConstruct(s.body, d, h), []);
    } else if IsElif(s) {
      var inner := s.orelse[0];
      SaidCountsIf(inner, d);
      SaidConcat(FlatConstruct(s.body, d, h), FlatIf(inner, d));
    } else {
      SaidCountsConstruct(s.orelse, d, Negated(s.test, s.operator));
      SaidConcat(FlatConstruct(s.body, d, h), FlatConstruct(s.orelse, d, Negated(s.test, s.operator)));
    }
  }

  lemma {:induction false} IfTexts(s: Stmt)
    requires s.If?
    ensures HiddenIn(s) == |TextsOf(s.calls)| + Hidden(s.body) + Hidden(s.orelse)
    ensures |TextsIn(s)| == |TextsOf(s.calls)| + |Texts(s.body)| + |Texts(s.orelse)|
    ensures |TextsOf(s.calls)| == 0 ==> TextsIn(s) == Texts(s.body) + Texts(s.orelse)
    ensures s.orelse == [] ==> Hidden(s.orelse) == 0 && Texts(s.orelse) == []
    ensures IsElif(s) ==> Hidden(s.orelse) == HiddenIn(s.orelse[0]) && Texts(s.orelse) == TextsIn(s.orelse[0])
  {
    hide TextsOf;
    if IsElif(s) {
      assert s.orelse[1..] == [];
      assert Texts(s.orelse) == TextsIn(s.orelse[0]) + [];
    }
    assert |TextsOf(s.calls)| == 0 ==>
      TextsOf(s.calls) + Texts(s.body) + Texts(s.orelse) == Texts(s.body) + Texts(s.orelse);
  }

  lemma {:induction false} SaidCountsConstruct(body: seq<Stmt>, d: nat, heading: string)
    ensures |Said(FlatConstruct(body, d, heading))| + Hidden(body) == |Texts(body)|
    ensures Hidden(body) == 0 ==> Said(FlatConstruct(body, d, heading)) == Texts(body)
    decreases body, 3
  {
    hide Said, Flat, Hidden, Texts;
    SaidCounts(body, d);
    SaidCounts(body, d + 1);
    SaidConcat([Heading(d, heading)], Flat(body, d + 1));
    assert Said([Heading(d, heading)]) == [] by { SaidHeading(d, heading); }
    assert [] + Said(Flat(body, d + 1)) == Said(Flat(body, d + 1));
  }

  lemma {:induction false} SaidHeading(d: nat, heading: string)
    ensures Said([Heading(d, heading)]) == []
  {
    assert [Heading(d, heading)][..0] == [];
  }

  /** The literal step texts of a module are shown exactly once each and in source order, if and only if none of them
      stands in the header of a compound statement. */
  lemma {:induction false} EveryTextOnceInOrder(tree: seq<Stmt>)
    ensures Said(Flat(tree, 1)) == Texts(tree) <==> Hidden(tree) == 0
  {
    SaidCounts(tree, 1);
  }

  // ---- headings ----

  /** A step or a push in a simple statement, where the walker reads it. */
  predicate LeafStep(body: seq<Stmt>)
    decreases body, 1
  {
    body != [] && (LeafStepIn(body[0]) || LeafStep(body[1..]))
  }

  predicate LeafStepIn(s: Stmt)
    decreases s, 0
  {
    if s.Leaf? then Declares(s.calls) else LeafStep(s.body) || ((s.If? || s.Loop?) && LeafStep(s.orelse))
  }

  /** A body that gets a heading has such a step, and so on below. */
  predicate HonestBody(body: seq<Stmt>)
    decreases body, 2
  {
    (HasStep(body) ==> LeafStep(body)) && Honest(body)
  }

  predicate Honest(body: seq<Stmt>)
    decreases body, 1
  {
    body == [] || (HonestIn(body[0]) && Honest(body[1..]))
  }

  predicate HonestIn(s: Stmt)
    decreases s, 0
  {
    match s
    case Leaf(_) => true
    case If(_, _, _, _, body, orelse) =>
      HonestBody(body) && (orelse == [] || if IsElif(s) then HonestIn(orelse[0]) else HonestBody(orelse))
    case Loop(_, _, body, orelse) => HonestBody(body) && Honest(orelse)
    case Group(_, body) => Honest(body)
  }

  predicate Speaks(x: Item) { x.Say? || x.Finding? }

  ghost predicate SomeSpeak(items: seq<Item>) { exists x <- items :: Speaks(x) }

  ghost predicate OnlyClose(items: seq<Item>) { forall x <- items :: x.Close? }

  lemma {:induction false} SpeakConcat(a: seq<Item>, b: seq<Item>)
    ensures SomeSpeak(a + b) <==> SomeSpeak(a) || SomeSpeak(b)
    ensures OnlyClose(a + b) <==> OnlyClose(a) && OnlyClose(b)
  {
    hide Speaks;
    assert forall x :: x in a + b <==> x in a || x in b;
  }

  lemma {:induction false} SpeakNothing()
    ensures !SomeSpeak([]) && OnlyClose([])
  {
  }

  /** From i on everything up to j, which is a step or a finding, stands under i. */
  ghost predicate LeadsTo(items: seq<Item>, i: nat, j: nat) {
    && i < j < |items| && Speaks(items[j])
    && forall k :: i < k <= j ==> items[k].depth > items[i].depth
  }

  /** Every heading is followed by a step or a finding under it, with nothing but what stands under it in between. */
  ghost predicate Led(items: seq<Item>) {
    forall i: nat | i < |items| && items[i].Heading? :: exists j: nat :: LeadsTo(items, i, j)
  }

  lemma {:induction false} LeadsShifted(a: seq<Item>, b: seq<Item>, i: nat, j: nat)
    requires LeadsTo(b, i, j)
    ensures LeadsTo(a + b, |a| + i, |a| + j)
  {
    hide Speaks;
    forall k | |a| + i < k <= |a| + j
      ensures (a + b)[k].depth > (a + b)[|a| + i].depth
    {
      assert (a + b)[k] == b[k - |a|];
    }
  }

  /** b starts at depth d, or is empty. */
  predicate StartsAt(b: seq<Item>, d: nat) {
    b == [] || b[0].depth == d
  }

  lemma {:induction false} LedConcat(a: seq<Item>, b: seq<Item>, d: nat)
    requires (forall x <- a :: x.depth >= d) && StartsAt(b, d)
    ensures Led(a + b) <==> Led(a) && Led(b)
  {
    if Led(a) && Led(b) { LedBoth(a, b); }
    if Led(a + b) { LedApart(a, b, d); }
  }

  lemma {:induction false} LedBoth(a: seq<Item>, b: seq<Item>)
    requires Led(a) && Led(b)
    ensures Led(a + b)
  {
    hide Speaks;
    forall i: nat | i < |a + b| && (a + b)[i].Heading?
      ensures exists j: nat :: LeadsTo(a + b, i, j)
    {
      if i < |a| {
        var j: nat :| LeadsTo(a, i, j);
        assert LeadsTo(a + b, i, j);
      } else {
        assert b[i - |a|].Heading?;
        var j: nat :| LeadsTo(b, i - |a|, j);
        LeadsShifted(a, b, i - |a|, j);
      }
    }
  }

  lemma {:induction false} LedApart(a: seq<Item>, b: seq<Item>, d: nat)
    requires Led(a + b) && (forall x <- a :: x.depth >= d) && StartsAt(b, d)
    ensures Led(a) && Led(b)
  {
    hide Speaks;
    forall i: nat | i < |a| && a[i].Heading?
      ensures exists j: nat :: LeadsTo(a, i, j)
    {
      assert (a + b)[i] == a[i] && a[i] in a;
      var j: nat :| LeadsTo(a + b, i, j);
      assert b != [] ==> (a + b)[|a|] == b[0];
      forall k | i < k <= j
        ensures a[k].depth > a[i].depth
      {
        assert (a + b)[k] == a[k];
      }
      assert LeadsTo(a, i, j);
    }
    forall i: nat | i < |b| && b[i].Heading?
      ensures exists j: nat :: LeadsTo(b, i, j)
    {
      assert (a + b)[|a| + i] == b[i];
      var j: nat :| LeadsTo(a + b, |a| + i, j);
      forall k | i < k <= j - |a|
        ensures b[k].depth > b[i].depth
      {
        assert (a + b)[|a| + k] == b[k];
      }
      assert LeadsTo(b, i, j - |a|);
    }
  }

  lemma {:induction false} DepthsBelow(body: seq<Stmt>, d: nat)
    ensures (forall x <- Flat(body, d) :: x.depth >= d) && StartsAt(Flat(body, d), d)
    decreases body, 2
  {
    hide FlatStmt;
    if body != [] {
      DepthsBelowIn(body[0], d);
      DepthsBelow(body[1..], d);
    }
  }

  lemma {:induction false} DepthsBelowIn(s: Stmt, d: nat)
    ensures (forall x <- FlatStmt(s, d) :: x.depth >= d) && StartsAt(FlatStmt(s, d), d)
    decreases s, 1
  {
    hide Flat, FlatConstruct, FlatIf;
    match s
    case Leaf(calls) => DepthsOfLeaf(calls, d);
    case If(_, _, _, _, _, _) => DepthsBelowIf(s, d);
    case Loop(_, heading, body, orelse) =>
      DepthsBelowConstruct(body, d, heading);
      DepthsBelow(orelse, d);
    case Group(_, body) => DepthsBelow(body, d);
  }

  lemma {:induction false} DepthsOfLeaf(calls: seq<Call>, d: nat)
    ensures (forall x <- LeafItems(calls, d) :: x.depth == d && !x.Heading?) && StartsAt(LeafItems(calls, d), d)
  {
    if calls != [] {
      DepthsOfLeaf(calls[..|calls| - 1], d);
    }
  }

  lemma {:induction false} DepthsBelowIf(s: Stmt, d: nat)
    requires s.If?
    ensures (forall x <- FlatIf(s, d) :: x.depth >= d) && StartsAt(FlatIf(s, d), d)
    decreases s, 0
  {
    hide FlatConstruct;
    DepthsBelowConstruct(s.body, d, "If " + s.test + ":");
    if s.orelse == [] {
    } else if IsElif(s) {
      DepthsBelowIf(s.orelse[0], d);
    } else {
      DepthsBelowConstruct(s.orelse, d, Negated(s.test, s.operator));
    }
  }

  lemma {:induction false} DepthsBelowConstruct(body: seq<Stmt>, d: nat, heading: string)
    ensures (forall x <- FlatConstruct(body, d, heading) :: x.depth >= d)
      && StartsAt(FlatConstruct(body, d, heading), d)
    decreases body, 3
  {
    hide Flat;
    DepthsBelow(body, d);
    DepthsBelow(body, d + 1);
  }

  /** A body says something exactly when a simple statement of it has a step; without any step it yields at most group
      ends. */
  lemma {:induction false} SpeaksIfStep(body: seq<Stmt>, d: nat)
    ensures !HasStep(body) ==> OnlyClose(Flat(body, d))
    ensures SomeSpeak(Flat(body, d)) <==> LeafStep(body)
    decreases body, 2
  {
    hide FlatStmt, HasStepIn, LeafStepIn, SomeSpeak, OnlyClose;
    SpeakNothing();
    if body != [] {
      SpeaksIfStepIn(body[0], d);
      SpeaksIfStep(body[1..], d);
      SpeakConcat(FlatStmt(body[0], d), Flat(body[1..], d));
    }
  }

  lemma {:induction false} SpeaksIfStepIn(s: Stmt, d: nat)
    ensures !HasStepIn(s) ==> OnlyClose(FlatStmt(s, d))
    ensures SomeSpeak(FlatStmt(s, d)) <==> LeafStepIn(s)
    decreases s, 1
  {
    hide Flat, FlatConstruct, FlatIf, SomeSpeak, OnlyClose, HasStep, LeafStep;
    match s
    case Leaf(calls) => SpeaksIfCall(calls, d);
    case If(_, _, _, _, _, _) => SpeaksIfStepIf(s, d);
    case Loop(_, heading, body, orelse) =>
      SpeaksIfStepConstruct(body, d, heading);
      SpeaksIfStep(orelse, d);
      SpeakConcat(FlatConstruct(body, d, heading), Flat(orelse, d));
    case Group(_, body) => SpeaksIfStep(body, d);
  }

  lemma {:induction false} SpeaksIfCall(calls: seq<Call>, d: nat)
    ensures SomeSpeak(LeafItems(calls, d)) <==> Declares(calls)
    ensures !Declares(calls) ==> OnlyClose(LeafItems(calls, d))
  {
    hide SomeSpeak, OnlyClose, Declares, ItemsOf;
    SpeakNothing();
    if calls == [] {
      assert !Declares([]) by { DeclaresNothing(); }
    } else {
      var n := |calls| - 1;
      SpeaksIfCall(calls[..n], d);
      DeclaresMore(calls);
      SpeakConcat(LeafItems(calls[..n], d), ItemsOf(calls[n], d));
      ItemsSpeak(calls[n], d);
    }
  }

  lemma {:induction false} DeclaresNothing()
    ensures !Declares([])
  {
  }

  lemma {:induction false} DeclaresMore(calls: seq<Call>)
    requires calls != []
    ensures var last := calls[|calls| - 1];
      Declares(calls) <==> Declares(calls[..|calls| - 1]) || last.kind.Step? || last.kind.Push?
  {
    assert forall c :: c in calls <==> c in calls[..|calls| - 1] || c == calls[|calls| - 1];
  }

  lemma {:induction false} ItemsSpeak(c: Call, d: nat)
    ensures SomeSpeak(ItemsOf(c, d)) <==> c.kind.Step? || c.kind.Push?
    ensures SomeSpeak(ItemsOf(c, d)) || OnlyClose(ItemsOf(c, d))
  {
    if c.kind.Step? || c.kind.Push? {
      assert Speaks(ItemsOf(c, d)[0]) && ItemsOf(c, d)[0] in ItemsOf(c, d);
    }
  }

  lemma {:induction false} IfHas(s: Stmt)
    requires s.If?
    ensures HasStepIn(s) == (Declares(s.calls) || HasStep(s.body) || HasStep(s.orelse))
    ensures LeafStepIn(s) == (LeafStep(s.body) || LeafStep(s.orelse))
    ensures s.orelse == [] ==> !HasStep(s.orelse) && !LeafStep(s.orelse)
    ensures IsElif(s) ==> HasStep(s.orelse) == HasStepIn(s.orelse[0]) && LeafStep(s.orelse) == LeafStepIn(s.orelse[0])
  {
    if IsElif(s) { assert s.orelse[1..] == []; }
  }

  lemma {:induction false} SpeaksIfStepIf(s: Stmt, d: nat)
    requires s.If?
    ensures !HasStepIn(s) ==> OnlyClose(FlatIf(s, d))
    ensures SomeSpeak(FlatIf(s, d)) <==> LeafStepIn(s)
    decreases s, 0
  {
    hide FlatConstruct, SomeSpeak, OnlyClose, HasStepIn, LeafStepIn;
    SpeakNothing();
    IfHas(s);
    var h := "If " + s.test + ":";
    SpeaksIfStepConstruct(s.body, d, h);
    if s.orelse == [] {
      assert FlatIf(s, d) == FlatConstruct(s.body, d, h) + [] == FlatConstruct(s.body, d, h);
    } else if IsElif(s) {
      var inner := s.orelse[0];
      SpeaksIfStepIf(inner, d);
      SpeakConcat(FlatConstruct(s.body, d, h), FlatIf(inner, d));
    } else {
      var h' := Negated(s.test, s.operator);
      SpeaksIfStepConstruct(s.orelse, d, h');
      SpeakConcat(FlatConstruct(s.body, d, h), FlatConstruct(s.orelse, d, h'));
    }
  }

  lemma {:induction false} SpeaksIfStepConstruct(body: seq<Stmt>, d: nat, heading: string)
    ensures !HasStep(body) ==> OnlyClose(FlatConstruct(body, d, heading))
    ensures SomeSpeak(FlatConstruct(body, d, heading)) <==> LeafStep(body)
    decreases body, 3
  {
    hide Flat, SomeSpeak, OnlyClose, HasStep, LeafStep;
    SpeaksIfStep(body, d);
    SpeaksIfStep(body, d + 1);
    SpeakConcat([Heading(d, heading)], Flat(body, d + 1));
    assert !SomeSpeak([Heading(d, heading)]) by { HeadingIsSilent(d, heading); }
  }

  lemma {:induction false} HeadingIsSilent(d: nat, heading: string)
    ensures !SomeSpeak([Heading(d, heading)])
  {
  }

  /** Every heading leads to a step or finding of its own body, if and only if every body that gets one has a step in a
      simple statement. */
  lemma {:induction false} HeadingsLead(body: seq<Stmt>, d: nat)
    ensures Led(Flat(body, d)) <==> Honest(body)
    decreases body, 2
  {
    hide FlatStmt, HonestIn, Led;
    LedNothing();
    if body != [] {
      HeadingsLeadIn(body[0], d);
      HeadingsLead(body[1..], d);
      DepthsBelowIn(body[0], d);
      DepthsBelow(body[1..], d);
      LedConcat(FlatStmt(body[0], d), Flat(body[1..], d), d);
    }
  }

  lemma {:induction false} LedNothing()
    ensures Led([])
  {
  }

  lemma {:induction false} HeadingsLeadIn(s: Stmt, d: nat)
    ensures Led(FlatStmt(s, d)) <==> HonestIn(s)
    decreases s, 1
  {
    hide Flat, FlatConstruct, FlatIf, Led, Honest, HonestBody;
    match s
    case Leaf(calls) =>
      DepthsOfLeaf(calls, d);
      LedNoHeading(LeafItems(calls, d));
    case If(_, _, _, _, _, _) => HeadingsLeadIf(s, d);
    case Loop(_, heading, body, orelse) =>
      HeadingsLeadConstruct(body, d, heading);
      HeadingsLead(orelse, d);
      DepthsBelowConstruct(body, d, heading);
      DepthsBelow(orelse, d);
      LedConcat(FlatConstruct(body, d, heading), Flat(orelse, d), d);
    case Group(_, body) => HeadingsLead(body, d);
  }

  lemma {:induction false} LedNoHeading(items: seq<Item>)
    requires forall x <- items :: !x.Heading?
    ensures Led(items)
  {
  }

  lemma {:induction false} HeadingsLeadIf(s: Stmt, d: nat)
    requires s.If?
    ensures Led(FlatIf(s, d)) <==> HonestIn(s)
    decreases s, 0
  {
    hide FlatConstruct, Led, HonestBody;
    var h := "If " + s.test + ":";
    HeadingsLeadConstruct(s.body, d, h);
    DepthsBelowConstruct(s.body, d, h);
    if s.orelse == [] {
      assert FlatIf(s, d) == FlatConstruct(s.body, d, h) + [] == FlatConstruct(s.body, d, h);
    } else if IsElif(s) {
      HeadingsLeadIf(s.orelse[0], d);
      DepthsBelowIf(s.orelse[0], d);
      LedConcat(FlatConstruct(s.body, d, h), FlatIf(s.orelse[0], d), d);
    } else {
      HeadingsLeadConstruct(s.orelse, d, Negated(s.test, s.operator));
      DepthsBelowConstruct(s.orelse, d, Negated(s.test, s.operator));
      LedConcat(FlatConstruct(s.body, d, h), FlatConstruct(s.orelse, d, Negated(s.test, s.operator)), d);
    }
  }

  lemma {:induction false} HeadingsLeadConstruct(body: seq<Stmt>, d: nat, heading: string)
    ensures Led(FlatConstruct(body, d, heading)) <==> HonestBody(body)
    decreases body, 3
  {
    hide Flat, Led, HasStep, LeafStep, Honest;
    HeadingsLead(body, d);
    HeadingsLead(body, d + 1);
    if HasStep(body) {
      SpeaksIfStep(body, d + 1);
      DepthsBelow(body, d + 1);
      LedUnder(d, heading, Flat(body, d + 1));
    }
  }

  lemma {:induction false} LeadsFromTop(d: nat, heading: string, items: seq<Item>) returns (j: nat)
    requires (forall x <- items :: x.depth > d) && SomeSpeak(items)
    ensures LeadsTo([Heading(d, heading)] + items, 0, j)
  {
    hide Speaks;
    var all := [Heading(d, heading)] + items;
    var x :| x in items && Speaks(x);
    var i :| 0 <= i < |items| && items[i] == x;
    j := i + 1;
    assert all[j] == x;
    forall k | 0 < k <= j
      ensures all[k].depth > all[0].depth
    {
      assert all[k] == items[k - 1];
    }
  }

  lemma {:induction false} LedUnder(d: nat, heading: string, items: seq<Item>)
    requires forall x <- items :: x.depth > d
    ensures Led([Heading(d, heading)] + items) <==> Led(items) && SomeSpeak(items)
  {
    if Led(items) && SomeSpeak(items) { LedFromTop(d, heading, items); }
    if Led([Heading(d, heading)] + items) { LedBelow(d, heading, items); }
  }

  lemma {:induction false} LedFromTop(d: nat, heading: string, items: seq<Item>)
    requires Led(items) && SomeSpeak(items) && forall x <- items :: x.depth > d
    ensures Led([Heading(d, heading)] + items)
  {
    hide Speaks, SomeSpeak, LeadsTo;
    var all := [Heading(d, heading)] + items;
    var first := LeadsFromTop(d, heading, items);
    forall i: nat | i < |all| && all[i].Heading?
      ensures exists j: nat :: LeadsTo(all, i, j)
    {
      if i > 0 {
        var j := LeadsFromBelow(d, heading, items, i - 1);
        assert LeadsTo(all, i, j);
      } else {
        assert LeadsTo(all, 0, first);
      }
    }
  }

  lemma {:induction false} LeadsFromBelow(d: nat, heading: string, items: seq<Item>, i: nat) returns (j: nat)
    requires Led(items) && i < |items| && items[i].Heading?
    ensures LeadsTo([Heading(d, heading)] + items, i + 1, j)
  {
    hide LeadsTo;
    var k: nat :| LeadsTo(items, i, k);
    LeadsShifted([Heading(d, heading)], items, i, k);
    j := k + 1;
  }

  lemma {:induction false} LedBelow(d: nat, heading: string, items: seq<Item>)
    requires Led([Heading(d, heading)] + items)
    ensures Led(items) && SomeSpeak(items)
  {
    hide Speaks, LeadsTo;
    var all := [Heading(d, heading)] + items;
    forall i: nat | i < |items| && items[i].Heading?
      ensures exists j: nat :: LeadsTo(items, i, j)
    {
      assert all[i + 1] == items[i];
      var j: nat :| LeadsTo(all, i + 1, j);
      LeadsWithin(d, heading, items, i, j);
      assert LeadsTo(items, i, j - 1);
    }
    assert all[0].Heading?;
    var j: nat :| LeadsTo(all, 0, j);
    LeadsToSpeech(d, heading, items, j);
  }

  lemma {:induction false} LeadsWithin(d: nat, heading: string, items: seq<Item>, i: nat, j: nat)
    requires LeadsTo([Heading(d, heading)] + items, i + 1, j)
    ensures j > 0 && LeadsTo(items, i, j - 1)
  {
    hide Speaks;
    var all := [Heading(d, heading)] + items;
    assert all[j] == items[j - 1] && all[i + 1] == items[i];
    forall k | i < k <= j - 1
      ensures items[k].depth > items[i].depth
    {
      assert all[k + 1] == items[k];
    }
  }

  lemma {:induction false} LeadsToSpeech(d: nat, heading: string, items: seq<Item>, j: nat)
    requires LeadsTo([Heading(d, heading)] + items, 0, j)
    ensures SomeSpeak(items)
  {
    hide Speaks;
    assert ([Heading(d, heading)] + items)[j] == items[j - 1] && items[j - 1] in items;
  }

  /** A step in a loop's header counts for the heading above it, and is never shown: the heading then leads nowhere. */
  lemma {:induction false} HeadingOverNothing()
    ensures
      var tree := [Loop([], "For each a in b:",
                        [Loop([Call(Step, Some("s"), 2)], "While t.step('s'):", [], [])], [])];
      Flat(tree, 1) == [Heading(1, "For each a in b:")] && Texts(tree) == ["s"]
  {
    var inner := Loop([Call(Step, Some("s"), 2)], "While t.step('s'):", [], []);
    var tree := [Loop([], "For each a in b:", [inner], [])];
    assert tree[1..] == [] && [inner][1..] == [];
    assert inner.calls[0] in inner.calls && Declares(inner.calls);
    assert HasStepIn(inner) && HasStep([inner]) && !HasStep([]);
    assert Flat([inner], 2) == FlatStmt(inner, 2) == FlatConstruct([], 2, inner.heading) + Flat([], 2) == [];
    assert TextsOf(inner.calls) == TextsOf([]) + ["s"];
    assert TextsIn(inner) == ["s"] && Texts([inner]) == ["s"];
  }

  // ---- depths ----

  /** A call or a heading, and the bodies of the constructs around it, outermost first. Groups are transparent, a
      chain of elifs stands where its if does. */
  datatype Site = CallAt(call: Call, around: seq<seq<Stmt>>) | HeadingAt(text: string, around: seq<seq<Stmt>>)

  function Sites(body: seq<Stmt>, around: seq<seq<Stmt>>): seq<Site>
    decreases body, 2
  {
    if body == [] then [] else SitesIn(body[0], around) + Sites(body[1..], around)
  }

  function SitesIn(s: Stmt, around: seq<seq<Stmt>>): seq<Site>
    decreases s, 1
  {
    match s
    case Leaf(calls) => SitesOf(calls, around)
    case If(_, _, _, _, _, _) => SitesIf(s, around)
    case Loop(_, heading, body, orelse) => SitesUnder(body, heading, around) + Sites(orelse, around)
    case Group(_, body) => Sites(body, around)
  }

  function SitesIf(s: Stmt, around: seq<seq<Stmt>>): seq<Site>
    requires s.If?
    decreases s, 0
  {
    SitesUnder(s.body, "If " + s.test + ":", around)
    + if s.orelse == [] then []
      else if IsElif(s) then SitesIf(s.orelse[0], around)
      else SitesUnder(s.orelse, Negated(s.test, s.operator), around)
  }

  /** The body of a construct, and its heading if a step is in it. */
  function SitesUnder(body: seq<Stmt>, heading: string, around: seq<seq<Stmt>>): seq<Site>
    decreases body, 3
  {
    (if HasStep(body) then [HeadingAt(heading, around)] else []) + Sites(body, around + [body])
  }

  function SitesOf(calls: seq<Call>, around: seq<seq<Stmt>>): seq<Site> {
    if calls == [] then [] else SitesOf(calls[..|calls| - 1], around) + [CallAt(calls[|calls| - 1], around)]
  }

  /** How many of the enclosing constructs contain a step. */
  function Bearing(around: seq<seq<Stmt>>): nat {
    if around == [] then 0
    else Bearing(around[..|around| - 1]) + if HasStep(around[|around| - 1]) then 1 else 0
  }

  /** What stands at a site: at depth 1 plus the step-bearing constructs around it. */
  function Placed1(site: Site): seq<Item> {
    var d := 1 + Bearing(site.around);
    match site
    case CallAt(call, _) => ItemsOf(call, d)
    case HeadingAt(text, _) => [Heading(d, text)]
  }

  function Placed(sites: seq<Site>): seq<Item> {
    if sites == [] then [] else Placed(sites[..|sites| - 1]) + Placed1(sites[|sites| - 1])
  }

  lemma {:induction false} PlacedConcat(a: seq<Site>, b: seq<Site>)
    ensures Placed(a + b) == Placed(a) + Placed(b)
  {
    hide Placed1;
    if b == [] {
      assert a + b == a;
    } else {
      var rest, last := b[..|b| - 1], b[|b| - 1];
      assert (a + b)[..|a + b| - 1] == a + rest && (a + b)[|a + b| - 1] == last;
      PlacedConcat(a, rest);
      assert Placed(a + b) == Placed(a) + Placed(rest) + Placed1(last);
      assert Placed(b) == Placed(rest) + Placed1(last);
    }
  }

  lemma {:induction false} PlacedOne(site: Site)
    ensures Placed([site]) == Placed1(site) && Placed([]) == []
  {
    hide Placed1;
    assert [site][..0] == [];
  }

  lemma {:induction false} BearingMore(around: seq<seq<Stmt>>, body: seq<Stmt>)
    ensures Bearing(around + [body]) == Bearing(around) + if HasStep(body) then 1 else 0
  {
    hide HasStep;
    assert (around + [body])[..|around|] == around;
  }

  lemma {:induction false} DepthOfLeaf(calls: seq<Call>, around: seq<seq<Stmt>>)
    ensures LeafItems(calls, 1 + Bearing(around)) == Placed(SitesOf(calls, around))
  {
    hide Bearing, ItemsOf;
    if calls != [] {
      var n := |calls| - 1;
      DepthOfLeaf(calls[..n], around);
      PlacedConcat(SitesOf(calls[..n], around), [CallAt(calls[n], around)]);
      PlacedOne(CallAt(calls[n], around));
    }
  }

  /** Every heading, step, finding and group end stands at depth 1 plus the step-bearing constructs around it: what the
      walker accumulates on the way is what a look at the enclosing constructs gives. */
  lemma {:induction false} DepthIsBearing(body: seq<Stmt>, around: seq<seq<Stmt>>)
    ensures Flat(body, 1 + Bearing(around)) == Placed(Sites(body, around))
    decreases body, 2
  {
    hide FlatStmt, SitesIn, Placed1, Bearing;
    if body != [] {
      DepthIsBearingIn(body[0], around);
      DepthIsBearing(body[1..], around);
      PlacedConcat(SitesIn(body[0], around), Sites(body[1..], around));
    }
  }

  lemma {:induction false} DepthIsBearingIn(s: Stmt, around: seq<seq<Stmt>>)
    ensures FlatStmt(s, 1 + Bearing(around)) == Placed(SitesIn(s, around))
    decreases s, 1
  {
    hide Flat, FlatConstruct, FlatIf, SitesIf, Sites, SitesUnder, Placed, Bearing;
    match s
    case Leaf(calls) => DepthOfLeaf(calls, around);
    case If(_, _, _, _, _, _) => DepthIsBearingIf(s, around);
    case Loop(_, heading, body, orelse) =>
      DepthIsBearingConstruct(body, around, heading);
      DepthIsBearing(orelse, around);
      PlacedConcat(SitesUnder(body, heading, around), Sites(orelse, around));
    case Group(_, body) => DepthIsBearing(body, around);
  }

  lemma {:induction false} DepthIsBearingIf(s: Stmt, around: seq<seq<Stmt>>)
    requires s.If?
    ensures FlatIf(s, 1 + Bearing(around)) == Placed(SitesIf(s, around))
    decreases s, 0
  {
    hide FlatConstruct, SitesUnder, Placed, Bearing, Negated;
    var first := "If " + s.test + ":";
    DepthIsBearingConstruct(s.body, around, first);
    if s.orelse == [] {
      assert SitesIf(s, around) == SitesUnder(s.body, first, around);
      assert FlatIf(s, 1 + Bearing(around)) == FlatConstruct(s.body, 1 + Bearing(around), first);
    } else if IsElif(s) {
      DepthIsBearingIf(s.orelse[0], around);
      PlacedConcat(SitesUnder(s.body, first, around), SitesIf(s.orelse[0], around));
    } else {
      var last := Negated(s.test, s.operator);
      DepthIsBearingConstruct(s.orelse, around, last);
      PlacedConcat(SitesUnder(s.body, first, around), SitesUnder(s.orelse, last, around));
    }
  }

  lemma {:induction false} DepthIsBearingConstruct(body: seq<Stmt>, around: seq<seq<Stmt>>, heading: string)
    ensures FlatConstruct(body, 1 + Bearing(around), heading) == Placed(SitesUnder(body, heading, around))
    decreases body, 3
  {
    hide Flat, Sites, Placed, HasStep, Bearing;
    var site := HeadingAt(heading, around);
    BearingMore(around, body);
    DepthIsBearing(body, around + [body]);
    PlacedOne(site);
    PlacedConcat([site], Sites(body, around + [body]));
    assert [] + Sites(body, around + [body]) == Sites(body, around + [body]);
  }

  /** The branches of an if with its elifs and its else. */
  function Branches(s: Stmt): seq<(string, seq<Stmt>)>
    requires s.If?
  {
    [("If " + s.test + ":", s.body)]
    + if s.orelse == [] then []
      else if IsElif(s) then Branches(s.orelse[0])
      else [(Negated(s.test, s.operator), s.orelse)]
  }

  function Constructs(branches: seq<(string, seq<Stmt>)>, d: nat): seq<Item> {
    if branches == [] then [] else FlatConstruct(branches[0].1, d, branches[0].0) + Constructs(branches[1..], d)
  }

  /** All branches of a chain stand side by side at one depth, however long it is. */
  lemma {:induction false} ElifChainIsFlat(s: Stmt, d: nat)
    requires s.If?
    ensures FlatIf(s, d) == Constructs(Branches(s), d)
    decreases s
  {
    hide FlatConstruct;
    var first := ("If " + s.test + ":", s.body);
    assert Branches(s)[0] == first;
    if s.orelse == [] {
      assert Branches(s)[1..] == [];
    } else if IsElif(s) {
      ElifChainIsFlat(s.orelse[0], d);
      assert Branches(s)[1..] == Branches(s.orelse[0]);
    } else {
      var last := (Negated(s.test, s.operator), s.orelse);
      assert Branches(s) == [first, last] && Branches(s)[1..] == [last] && Branches(s)[1..][1..] == [];
      assert Constructs([last], d) == FlatConstruct(s.orelse, d, last.0) + [];
    }
  }

  // ---- the running count of open groups ----

  function Delta(x: Item): int {
    if x.Close? then -1 else if x.Say? && x.opens then 1 else 0
  }

  function Balance(items: seq<Item>): int {
    if items == [] then 0 else Balance(items[..|items| - 1]) + Delta(items[|items| - 1])
  }

  /** Groups still open: as many as the balance has risen since it was lowest. */
  ghost predicate IsOpen(items: seq<Item>, level: nat) {
    && (forall i :: 0 <= i <= |items| ==> Balance(items) - Balance(items[..i]) <= level)
    && (exists i :: 0 <= i <= |items| && Balance(items) - Balance(items[..i]) == level)
  }

  const START: State := State([], [], 0)

  lemma {:induction false} PushedIsOpen(items: seq<Item>)
    ensures IsOpen(items, Play(START, items).pushed)
  {
    hide IsOpen;
    if items == [] {
      assert IsOpen([], 0) by { OpenNothing(); }
    } else {
      var rest, last := items[..|items| - 1], items[|items| - 1];
      PushedIsOpen(rest);
      OpenMore(rest, last, Play(START, rest).pushed);
      assert rest + [last] == items;
    }
  }

  lemma {:induction false} OpenNothing()
    ensures IsOpen([], 0)
  {
    var none: seq<Item> := [];
    assert none[..0] == none;
  }

  /** What the next item adds: its text at its depth plus the groups then open, or its line. */
  lemma {:induction false} ShownWithOpenGroups(items: seq<Item>, x: Item, open: nat)
    requires IsOpen(items, open)
    ensures var (before, after) := (Play(START, items), Play(START, items + [x]));
      && after.steps == before.steps + (if x.Heading? || x.Say? then [(x.depth + open, x.text)] else [])
      && after.findings == before.findings + (if x.Finding? then [x.line] else [])
  {
    PushedIsOpen(items);
    assert (items + [x])[..|items|] == items;
  }

  lemma {:induction false} OpenMore(items: seq<Item>, x: Item, level: nat)
    requires IsOpen(items, level)
    ensures IsOpen(items + [x], if x.Close? then if level == 0 then 0 else level - 1 else level + Delta(x))
  {
    hide Balance, Delta;
    var more := items + [x];
    var delta, next := Delta(x), if x.Close? then if level == 0 then 0 else level - 1 else level + Delta(x);
    BalanceMore(items, x);
    forall i | 0 <= i <= |items|
      ensures more[..i] == items[..i]
    {
    }
    assert more[..|more|] == more && items[..|items|] == items;
    var i :| 0 <= i <= |items| && Balance(items) - Balance(items[..i]) == level;
    if x.Close? && level == 0 {
      assert Balance(more) - Balance(more[..|more|]) == next;
    } else {
      assert Balance(more) - Balance(more[..i]) == next;
    }
  }

  lemma {:induction false} BalanceMore(items: seq<Item>, x: Item)
    ensures Balance(items + [x]) == Balance(items) + Delta(x) && -1 <= Delta(x) <= 1 && (x.Close? <==> Delta(x) == -1)
  {
    assert (items + [x])[..|items|] == items;
  }
}
