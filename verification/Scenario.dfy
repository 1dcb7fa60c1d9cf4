/**
 testsinfo/steps.py: the scenario of a test module, walked out of its syntax tree.

 The walker keeps a depth and a running count of open groups entangled in one pass. Here it is split: what the syntax
 says (Flat), what the pushes and pops do to it (Play), and theorems about each.
 */
module Scenario {
  import opened Common

  datatype Kind = Step | Push | Pop | Plain

  /** A call: its scenario kind, the text of its first argument when that is a literal, and its line. */
  datatype Call = Call(kind: Kind, text: Option<string>, line: nat)

  /** `calls` are those of a statement's own expressions, outermost first, in source order. */
  datatype Stmt =
    | Leaf(calls: seq<Call>)
    | If(calls: seq<Call>, test: string, operator: bool, column: nat, body: seq<Stmt>, orelse: seq<Stmt>)
    | Loop(calls: seq<Call>, heading: string, body: seq<Stmt>, orelse: seq<Stmt>)
    | Group(calls: seq<Call>, body: seq<Stmt>)

  /** What a statement contributes, with its syntactic depth. */
  datatype Item =
    | Heading(depth: nat, text: string)
    | Say(depth: nat, text: string, opens: bool)
    | Finding(depth: nat, line: nat)
    | Close(depth: nat)

  predicate Declares(calls: seq<Call>) {
    exists c <- calls :: c.kind.Step? || c.kind.Push?
  }

  predicate HasStep(body: seq<Stmt>)
    decreases body, 1
  {
    body != [] && (HasStepIn(body[0]) || HasStep(body[1..]))
  }

  predicate HasStepIn(s: Stmt)
    decreases s, 0
  {
    Declares(s.calls) || (!s.Leaf? && HasStep(s.body)) || ((s.If? || s.Loop?) && HasStep(s.orelse))
  }

  function LeafItems(calls: seq<Call>, d: nat): seq<Item> {
    if calls == [] then [] else LeafItems(calls[..|calls| - 1], d) + ItemsOf(calls[|calls| - 1], d)
  }

  function ItemsOf(c: Call, d: nat): seq<Item> {
    match c.kind
    case Plain => []
    case Pop => [Close(d)]
    case _ => if c.text.None? then [Finding(d, c.line)] else [Say(d, c.text.value, c.kind.Push?)]
  }

  function Negated(test: string, operator: bool): string {
    if operator then "If not (" + test + "):" else "If not " + test + ":"
  }

  predicate IsElif(s: Stmt)
    requires s.If?
  {
    |s.orelse| == 1 && s.orelse[0].If? && s.orelse[0].column == s.column
  }

  function Flat(body: seq<Stmt>, d: nat): seq<Item>
    decreases body, 2
  {
    if body == [] then [] else FlatStmt(body[0], d) + Flat(body[1..], d)
  }

  function FlatStmt(s: Stmt, d: nat): seq<Item>
    decreases s, 1
  {
    match s
    case Leaf(calls) => LeafItems(calls, d)
    case If(_, _, _, _, _, _) => FlatIf(s, d)
    case Loop(_, heading, body, orelse) => FlatConstruct(body, d, heading) + Flat(orelse, d)
    case Group(_, body) => Flat(body, d)
  }

  function FlatIf(s: Stmt, d: nat): seq<Item>
    requires s.If?
    decreases s, 0
  {
    FlatConstruct(s.body, d, "If " + s.test + ":")
    + if s.orelse == [] then []
      else if IsElif(s) then FlatIf(s.orelse[0], d)
      else FlatConstruct(s.orelse, d, Negated(s.test, s.operator))
  }

  function FlatConstruct(body: seq<Stmt>, d: nat, heading: string): seq<Item>
    decreases body, 3
  {
    if HasStep(body) then [Heading(d, heading)] + Flat(body, d + 1) else Flat(body, d)
  }

  // ---- the running count ----

  datatype State = State(steps: seq<(nat, string)>, findings: seq<nat>, pushed: nat)

  function Emit(s: State, x: Item): State {
    match x
    case Heading(d, text) => s.(steps := s.steps + [(d + s.pushed, text)])
    case Say(d, text, opens) =>
      s.(steps := s.steps + [(d + s.pushed, text)], pushed := if opens then s.pushed + 1 else s.pushed)
    case Finding(_, line) => s.(findings := s.findings + [line])
    case Close(_) => s.(pushed := if s.pushed == 0 then 0 else s.pushed - 1)
  }

  function Play(s: State, items: seq<Item>): State {
    if items == [] then s else Emit(Play(s, items[..|items| - 1]), items[|items| - 1])
  }

  lemma {:induction false} PlayConcat(s: State, a: seq<Item>, b: seq<Item>)
    ensures Play(s, a + b) == Play(Play(s, a), b)
  {
    if b == [] {
      assert a + b == a;
    } else {
      assert (a + b)[..|a + b| - 1] == a + b[..|b| - 1];
      PlayConcat(s, a, b[..|b| - 1]);
    }
  }

  // ---- the walker ----

  class Walker {
    var steps: seq<(nat, string)>
    var findings: seq<nat>
    var pushed: nat

    ghost function Now(): State reads this { State(steps, findings, pushed) }

    constructor ()
      ensures Now() == State([], [], 0)
    {
      steps, findings, pushed := [], [], 0;
    }

    method Show(depth: nat, text: string)
      modifies this
      ensures Now() == Emit(old(Now()), Heading(depth, text))
    {
      steps := steps + [(depth + pushed, text)];
    }

    method Walk(body: seq<Stmt>, depth: nat)
      modifies this
      ensures Now() == Play(old(Now()), Flat(body, depth))
      decreases body, 2
    {
      hide Play;
      assert Play(Now(), []) == Now() by { PlayNone(Now()); }
      ghost var start := Now();
      for i := 0 to |body|
        invariant Now() == Play(start, Flat(body[..i], depth))
      {
        ghost var before := Flat(body[..i], depth);
        Statement(body[i], depth);
        FlatConcat(body[..i], [body[i]], depth);
        FlatOne(body[i], depth);
        assert body[..i + 1] == body[..i] + [body[i]];
        PlayConcat(start, before, FlatStmt(body[i], depth));
      }
      assert body[..|body|] == body;
    }

    method Statement(s: Stmt, depth: nat)
      modifies this
      ensures Now() == Play(old(Now()), FlatStmt(s, depth))
      decreases s, 1
    {
      hide Play, FlatConstruct, Flat;
      match s {
        case If(_, _, _, _, _, _) => Branch(s, depth);
        case Loop(_, heading, body, orelse) =>
          PlayConcat(Now(), FlatConstruct(body, depth, heading), Flat(orelse, depth));
          Construct(body, depth, heading);
          Walk(orelse, depth);
        case Group(_, body) => Walk(body, depth);
        case Leaf(calls) => Calls(calls, depth);
      }
    }

    method Construct(body: seq<Stmt>, depth: nat, heading: string)
      modifies this
      ensures Now() == Play(old(Now()), FlatConstruct(body, depth, heading))
      decreases body, 3
    {
      hide Play, Flat, HasStep;
      if HasStep(body) {
        PlayConcat(Now(), [Heading(depth, heading)], Flat(body, depth + 1));
        PlayOne(Now(), Heading(depth, heading));
        Show(depth, heading);
        Walk(body, depth + 1);
      } else {
        Walk(body, depth);
      }
    }

    method Branch(s: Stmt, depth: nat)
      requires s.If?
      modifies this
      ensures Now() == Play(old(Now()), FlatIf(s, depth))
      decreases s, 0
    {
      hide Play, FlatConstruct;
      ghost var first := FlatConstruct(s.body, depth, "If " + s.test + ":");
      PlayConcat(Now(), first, FlatIf(s, depth)[|first|..]);
      assert FlatIf(s, depth) == first + FlatIf(s, depth)[|first|..];
      PlayNone(Play(Now(), first));
      Construct(s.body, depth, "If " + s.test + ":");
      if s.orelse == [] {
        return;
      }
      if IsElif(s) {
        Branch(s.orelse[0], depth);
        return;
      }
      Construct(s.orelse, depth, Negated(s.test, s.operator));
    }

    method Calls(calls: seq<Call>, depth: nat)
      modifies this
      ensures Now() == Play(old(Now()), LeafItems(calls, depth))
    {
      hide Play, ItemsOf;
      PlayNone(Now());
      ghost var start := Now();
      for i := 0 to |calls|
        invariant Now() == Play(start, LeafItems(calls[..i], depth))
      {
        assert calls[..i + 1][..i] == calls[..i];
        PlayConcat(start, LeafItems(calls[..i], depth), ItemsOf(calls[i], depth));
        One(calls[i], depth);
      }
      assert calls[..|calls|] == calls;
    }

    method One(c: Call, depth: nat)
      modifies this
      ensures Now() == Play(old(Now()), ItemsOf(c, depth))
    {
      hide Play;
      PlayNone(Now());
      if c.kind.Pop? {
        PlayOne(Now(), Close(depth));
        pushed := if pushed == 0 then 0 else pushed - 1;
      } else if !c.kind.Plain? {
        if c.text.None? {
          PlayOne(Now(), Finding(depth, c.line));
          findings := findings + [c.line];
        } else {
          PlayOne(Now(), Say(depth, c.text.value, c.kind.Push?));
          Show(depth, c.text.value);
          if c.kind.Push? {
            pushed := pushed + 1;
          }
        }
      }
    }
  }

  method Extract(tree: seq<Stmt>) returns (steps: seq<(nat, string)>, findings: seq<nat>)
    ensures var end := Play(State([], [], 0), Flat(tree, 1)); steps == end.steps && findings == end.findings
  {
    var walker := new Walker();
    walker.Walk(tree, 1);
    return walker.steps, walker.findings;
  }

  lemma {:induction false} PlayNone(s: State)
    ensures Play(s, []) == s
  {
  }

  lemma {:induction false} PlayOne(s: State, x: Item)
    ensures Play(s, [x]) == Emit(s, x)
  {
    assert [x][..0] == [];
  }

  lemma {:induction false} FlatOne(s: Stmt, d: nat)
    ensures Flat([s], d) == FlatStmt(s, d)
  {
    hide FlatStmt;
    assert [s][1..] == [] && Flat([], d) == [];
  }

  lemma {:induction false} FlatConcat(a: seq<Stmt>, b: seq<Stmt>, d: nat)
    ensures Flat(a + b, d) == Flat(a, d) + Flat(b, d)
    decreases |a|
  {
    hide FlatStmt;
    if a == [] {
      assert a + b == b;
    } else {
      assert (a + b)[0] == a[0] && (a + b)[1..] == a[1..] + b;
      FlatConcat(a[1..], b, d);
    }
  }
}
