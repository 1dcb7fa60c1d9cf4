/** The agent-side runner (_remote_runner.py): the handle table, and one reply per request line. */
module RemoteRunner {
  import opened Common
  import opened RemoteMarshal
  import opened RemoteEngine

  datatype Table = Table(objects: map<int, RVal>, next: int)

  /** What the dispatched code did: the value it returned or the exception it raised. */
  datatype Effect = Produced(v: RVal) | Raised(fault: Fault)

  /** What an operation is dispatched on, after _decode. */
  datatype Inputs = Inputs(target: Option<RVal>, args: seq<RVal>, kwargs: seq<REntry>)

  /** A request line as the runner reads it. */
  datatype Line = Parsed(req: Request) | Malformed | Empty

  function Lookup(h: int, objects: map<int, RVal>): Result<RVal, DecodeError> {
    if h in objects then Ok(objects[h]) else Err(UnknownHandle)
  }

  /** The decoding part of _dispatch. */
  function DispatchInputs(op: Op, objects: map<int, RVal>): Result<Inputs, DecodeError> {
    match op
    case OpCall(_, _, args, kwargs) =>
      var a :- RunnerDecodeList(args, objects);
      var k :- RunnerDecodeFields(kwargs, objects);
      Ok(Inputs(None, a, k))
    case OpGetAttr(obj, _) =>
      var target :- Lookup(obj, objects);
      Ok(Inputs(Some(target), [], []))
    case OpCallObj(obj, args, kwargs) =>
      var a :- RunnerDecodeList(args, objects);
      var k :- RunnerDecodeFields(kwargs, objects);
      var target :- Lookup(obj, objects);
      Ok(Inputs(Some(target), a, k))
    case _ => Ok(Inputs(None, [], []))
  }

  /** The table once the piggybacked releases are done: unknown handles are ignored. */
  function Released(t: Table, free: seq<int>): Table {
    t.(objects := t.objects - (set h | h in free))
  }

  const KEY_ERROR := Fault("KeyError", "unknown handle", "")
  const BAD_REQUEST := Fault("ValueError", "request must be a JSON object", "")

  /** Store v under the next handle if it must stay remote. */
  function Stash(t: Table, v: RVal): (Table, Json) {
    if MustStash(v) then (Table(t.objects[t.next := v], t.next + 1), RefTo(t.next)) else (t, ToJson(v))
  }

  /** One line served: free, then dispatch, then encode. */
  function ServeSpec(t: Table, line: Line, effect: Effect): (Table, Reply)
    requires !line.Empty?
  {
    match line
    case Malformed => (t, Reply(None, Failed(BAD_REQUEST)))
    case Parsed(req) =>
      var t' := Released(t, req.free);
      if req.op.OpShutdown? then (t', Reply(Some(req.id), Value(Leaf(Null))))
      else if DispatchInputs(req.op, t'.objects).Err? then (t', Reply(Some(req.id), Failed(KEY_ERROR)))
      else match effect
        case Raised(fault) => (t', Reply(Some(req.id), Failed(fault)))
        case Produced(v) => var (t'', j) := Stash(t', v); (t'', Reply(Some(req.id), Value(j)))
  }

  class Runner {
    var objects: map<int, RVal>
    var nextHandle: int

    constructor ()
      ensures View() == Table(map[], 1)
    {
      objects, nextHandle := map[], 1;
    }

    function View(): Table
      reads this
    {
      Table(objects, nextHandle)
    }

    method Encode(v: RVal) returns (j: Json)
      modifies this
      ensures (View(), j) == Stash(old(View()), v)
    {
      if MustStash(v) {
        j := RefTo(nextHandle);
        objects := objects[nextHandle := v];
        nextHandle := nextHandle + 1;
      } else {
        j := ToJson(v);
      }
    }

    /** The body of the serve loop. */
    method Respond(line: Line, effect: Effect) returns (reply: Reply)
      requires !line.Empty?
      modifies this
      ensures (View(), reply) == ServeSpec(old(View()), line, effect)
    {
      match line
      case Malformed =>
        reply := Reply(None, Failed(BAD_REQUEST));
      case Parsed(req) =>
        ghost var t := View();
        for i := 0 to |req.free|
          invariant View() == Released(t, req.free[..i])
        {
          objects := map h | h in objects && h != req.free[i] :: objects[h];
          assert req.free[..i + 1] == req.free[..i] + [req.free[i]];
        }
        assert req.free[..|req.free|] == req.free;
        if req.op.OpShutdown? {
          reply := Reply(Some(req.id), Value(Leaf(Null)));
        } else if DispatchInputs(req.op, objects).Err? {
          reply := Reply(Some(req.id), Failed(KEY_ERROR));
        } else {
          match effect
          case Raised(fault) =>
            reply := Reply(Some(req.id), Failed(fault));
          case Produced(v) =>
            var j := Encode(v);
            reply := Reply(Some(req.id), Value(j));
        }
    }

    /** Runner.serve: every line that is not blank in turn, until input ends or a shutdown is answered. */
    method Serve(lines: seq<Line>, effects: seq<Effect>) returns (replies: seq<Reply>)
      requires |effects| == |lines|
      modifies this
      ensures View() == ServeAll(old(View()), lines, effects).0
      ensures replies == ServeAll(old(View()), lines, effects).1
    {
      replies := [];
      ghost var goal := ServeAll(View(), lines, effects);
      assert lines[0..] == lines && effects[0..] == effects;
      for i := 0 to |lines|
        invariant ServeAll(View(), lines[i..], effects[i..]).0 == goal.0
        invariant replies + ServeAll(View(), lines[i..], effects[i..]).1 == goal.1
      {
        assert lines[i..][1..] == lines[i + 1..] && effects[i..][1..] == effects[i + 1..];
        if lines[i].Empty? {
          continue;
        }
        var reply := Respond(lines[i], effects[i]);
        replies := replies + [reply];
        if lines[i].Parsed? && lines[i].req.op.OpShutdown? {
          return;
        }
      }
      assert replies + ServeAll(View(), [], []).1 == replies;
    }
  }

  function ServeAll(t: Table, lines: seq<Line>, effects: seq<Effect>): (Table, seq<Reply>)
    requires |effects| == |lines|
    decreases |lines|
  {
    if lines == [] then (t, [])
    else if lines[0].Empty? then ServeAll(t, lines[1..], effects[1..])
    else
    var (t', reply) := ServeSpec(t, lines[0], effects[0]);
    if lines[0].Parsed? && lines[0].req.op.OpShutdown? then (t', [reply])
    else var (t'', rest) := ServeAll(t', lines[1..], effects[1..]); (t'', [reply] + rest)
  }

  /** Blank lines do nothing: serving is as if they were not there. */
  lemma {:induction false} BlankLinesDoNothing(t: Table, lines: seq<Line>, effects: seq<Effect>)
    requires |effects| == |lines|
    ensures ServeAll(t, lines, effects)
         == ServeAll(t, Filled(lines, effects).0, Filled(lines, effects).1)
    decreases |lines|
  {
    hide ServeSpec;
    if lines != [] {
      var (rest, more) := Filled(lines[1..], effects[1..]);
      if lines[0].Empty? {
        BlankLinesDoNothing(t, lines[1..], effects[1..]);
      } else {
        BlankLinesDoNothing(ServeSpec(t, lines[0], effects[0]).0, lines[1..], effects[1..]);
        assert ([lines[0]] + rest)[1..] == rest && ([effects[0]] + more)[1..] == more;
      }
    }
  }

  /** The lines that are not blank, with their effects. */
  function Filled(lines: seq<Line>, effects: seq<Effect>): (r: (seq<Line>, seq<Effect>))
    requires |effects| == |lines|
    ensures |r.1| == |r.0| && forall line <- r.0 :: !line.Empty?
  {
    if lines == [] then ([], [])
    else
      var (rest, more) := Filled(lines[1..], effects[1..]);
      if lines[0].Empty? then (rest, more) else ([lines[0]] + rest, [effects[0]] + more)
  }

  /** Dispatch on the wire form of a call sees the call's own arguments with the objects of its proxies,
      provided the table still has them. */
  lemma {:induction false} DispatchSeesTheCall(call: Call, me: nat, objects: map<int, RVal>)
    requires EncodeCall(call, me).Ok?
    requires CallHandles(call) <= objects.Keys
    ensures DispatchInputs(EncodeCall(call, me).value, objects) == Ok(ResolvedCall(call, objects))
  {
    if call.CallFn? || call.CallObj? {
      EncodeListAccepts(call.args, me);
      EncodeEntriesAccepts(call.kwargs, me);
      RunnerSeesResolvedList(call.args, me, objects);
      DecodedKwargs(call.kwargs, me, objects);
    }
  }

  /** Keyword arguments are encoded value by value: their names are never tested against the reserved key. */
  lemma {:induction false} DecodedKwargs(es: seq<PyEntry>, me: nat, objects: map<int, RVal>)
    requires forall i :: 0 <= i < |es| ==> Shippable(es[i].val, me)
    ensures EncodeEntries(es, me).Ok?
    ensures RunnerDecodeFields(EncodeEntries(es, me).value, objects)
         == if HandlesOfEntries(es) <= objects.Keys then Ok(ResolvedEntries(es, objects)) else Err(UnknownHandle)
  {
    if es != [] {
      RunnerSeesResolved(es[0].val, me, objects);
      assert forall i :: 1 <= i < |es| ==> es[i] == es[1..][i - 1];
      DecodedKwargs(es[1..], me, objects);
      assert EncodeEntries(es, me).value[1..] == EncodeEntries(es[1..], me).value;
    }
  }

  ghost function ResolvedCall(call: Call, objects: map<int, RVal>): Inputs
    requires CallHandles(call) <= objects.Keys
  {
    match call
    case CallFn(_, _, args, kwargs) => Inputs(None, ResolvedList(args, objects), ResolvedEntries(kwargs, objects))
    case GetAttr(obj, _) => Inputs(Some(objects[obj]), [], [])
    case CallObj(obj, args, kwargs) =>
      Inputs(Some(objects[obj]), ResolvedList(args, objects), ResolvedEntries(kwargs, objects))
    case _ => Inputs(None, [], [])
  }
}
