/**
 The engine side of a remote Python session: RemotePython._request and _recv (remote.py).

 The transport is a script of what each wait on the stdout filter brings.  JSON text is abstract: a Codec
 renders a reply as a line and parses it back.
 */
module RemoteEngine {
  import opened Common
  import opened RemoteMarshal

  /** An operation as the engine program states it, with its proxies. */
  datatype Call =
    | CallFn(src: string, fname: string, args: seq<PyVal>, kwargs: seq<PyEntry>)
    | ImportModule(name: string)
    | GetAttr(obj: int, attr: string)
    | CallObj(obj: int, args: seq<PyVal>, kwargs: seq<PyEntry>)
    | Shutdown

  /** The same operation on the wire. */
  datatype Op =
    | OpCall(src: string, fname: string, args: seq<Json>, kwargs: seq<Field>)
    | OpImport(name: string)
    | OpGetAttr(obj: int, attr: string)
    | OpCallObj(obj: int, args: seq<Json>, kwargs: seq<Field>)
    | OpShutdown

  datatype Request = Request(id: int, free: seq<int>, op: Op)

  datatype Fault = Fault(kind: string, msg: string, traceback: string)
  datatype Body = Value(v: Json) | Failed(fault: Fault)
  datatype Reply = Reply(id: Option<int>, body: Body)

  function EncodeCall(call: Call, me: nat): Result<Op, EncodeError> {
    match call
    case CallFn(src, fname, args, kwargs) =>
      var a :- EncodeList(args, me);
      var k :- EncodeEntries(kwargs, me);
      Ok(OpCall(src, fname, a, k))
    case ImportModule(name) => Ok(OpImport(name))
    case GetAttr(obj, attr) => Ok(OpGetAttr(obj, attr))
    case CallObj(obj, args, kwargs) =>
      var a :- EncodeList(args, me);
      var k :- EncodeEntries(kwargs, me);
      Ok(OpCallObj(obj, a, k))
    case Shutdown => Ok(OpShutdown)
  }

  /** The handles of every proxy an operation mentions: its target and those inside its arguments. */
  ghost function CallHandles(call: Call): set<int> {
    match call
    case CallFn(_, _, args, kwargs) => HandlesOfList(args) + HandlesOfEntries(kwargs)
    case GetAttr(obj, _) => {obj}
    case CallObj(obj, args, kwargs) => {obj} + HandlesOfList(args) + HandlesOfEntries(kwargs)
    case _ => {}
  }

  // ---- the line discipline ---------------------------------------------------------

  datatype Codec = Codec(render: Reply -> string, parse: string -> Option<Reply>)

  /** line.strip() is empty. */
  predicate Blank(line: string) {
    forall i :: 0 <= i < |line| ==> IsSpace(line[i])
  }

  predicate NoNewline(s: string) {
    forall i :: 0 <= i < |s| ==> s[i] != '\n'
  }

  ghost predicate LineFor(c: Codec, r: Reply) {
    NoNewline(c.render(r)) && !Blank(c.render(r)) && c.parse(c.render(r)) == Some(r)
  }

  /** What is assumed of JSON text: a reply is one line, not blank, read back as written. */
  ghost predicate Lawful(c: Codec) {
    forall r: Reply :: LineFor(c, r)
  }

  /** Index of the first newline, |s| when there is none. */
  function NewlineAt(s: string): (n: nat)
    ensures n <= |s| && NoNewline(s[..n]) && (n < |s| ==> s[n] == '\n')
  {
    if s == [] || s[0] == '\n' then 0
    else
      assert s[..1 + NewlineAt(s[1..])] == [s[0]] + s[1..][..NewlineAt(s[1..])];
      1 + NewlineAt(s[1..])
  }

  // ---- engine state ----------------------------------------------------------------

  datatype Engine = Engine(lastId: nat, buf: string, broken: bool, dead: seq<int>)

  /** _request up to the send: a new id, and the queued dead handles leave with the request. */
  function Compose(e: Engine, op: Op): (Engine, Request)
    requires !e.broken
  {
    (e.(lastId := e.lastId + 1, dead := []), Request(e.lastId + 1, e.dead, op))
  }

  function Feed(e: Engine, data: string): Engine {
    e.(buf := e.buf + data)
  }

  /** Split the first line off the buffer. */
  function CutLine(e: Engine): (r: (string, Engine))
    requires NewlineAt(e.buf) < |e.buf|
    ensures r.1 == e.(buf := r.1.buf)
  {
    var n := NewlineAt(e.buf);
    (e.buf[..n], e.(buf := e.buf[n + 1..]))
  }

  /** What one wait on the stdout filter brings; Collected is a finalizer running meanwhile. */
  datatype Event =
    | Chunk(data: string)
    | TimedOut
    | DeadlinePassed
    | Eos
    | TransportError
    | Collected(handle: int)

  /** How a request ends. */
  datatype Outcome =
    | Returned(d: Decoded)
    | RemoteFailure(fault: Fault)
    | ProtocolError
    | BadLine
    | SessionBroke
    | TransportRaised
    | Unusable

  /** The state in which _recv leaves the engine, and the reply it read. */
  datatype Received = Received(e: Engine, got: Result<Reply, Outcome>)

  /** _recv against a script of events; a script that ends is a timeout. */
  function RecvSpec(c: Codec, e: Engine, script: seq<Event>): Received
    decreases |script|, |e.buf|
  {
    if NewlineAt(e.buf) < |e.buf| then
      var (line, e') := CutLine(e);
      if Blank(line) then RecvSpec(c, e', script)
      else match c.parse(line)
        case Some(reply) => Received(e', Ok(reply))
        case None => Received(e', Err(BadLine))
    else if script == [] then Received(e.(broken := true), Err(SessionBroke))
    else match script[0]
      case Chunk(data) => RecvSpec(c, Feed(e, data), script[1..])
      case TransportError => Received(e, Err(TransportRaised))
      case Collected(h) => RecvSpec(c, e.(dead := e.dead + [h]), script[1..])
      case _ => Received(e.(broken := true), Err(SessionBroke))
  }

  /** The end of _request: the reply counts only under the id just sent. */
  function Judge(lastId: nat, reply: Reply): Outcome {
    if reply.id != Some(lastId) then ProtocolError
    else match reply.body
      case Failed(fault) => RemoteFailure(fault)
      case Value(v) => Returned(EngineDecode(v))
  }

  class RemotePython {
    var lastId: nat
    var buf: string
    var broken: bool
    var dead: seq<int>

    constructor ()
      ensures View() == Engine(0, "", false, [])
    {
      lastId, buf, broken, dead := 0, "", false, [];
    }

    function View(): Engine
      reads this
    {
      Engine(lastId, buf, broken, dead)
    }

    /** RemoteObject.__del__: no I/O, only queue the handle. */
    method Collect(handle: int)
      modifies this
      ensures View() == old(View()).(dead := old(dead) + [handle])
    {
      dead := dead + [handle];
    }

    method Recv(c: Codec, script: seq<Event>) returns (got: Result<Reply, Outcome>)
      modifies this
      ensures Received(View(), got) == RecvSpec(c, old(View()), script)
    {
      ghost var goal := RecvSpec(c, View(), script);
      var k := 0;
      while true
        invariant 0 <= k <= |script|
        invariant RecvSpec(c, View(), script[k..]) == goal
        decreases |script| - k, |buf|
      {
        var nl := NewlineAt(buf);
        if nl < |buf| {
          var line := buf[..nl];
          buf := buf[nl + 1..];
          if !Blank(line) {
            match c.parse(line) {
              case Some(reply) => return Ok(reply);
              case None => return Err(BadLine);
            }
          }
          continue;
        }
        if k == |script| {
          broken := true;
          return Err(SessionBroke);
        }
        var event := script[k];
        assert script[k..][0] == event && script[k..][1..] == script[k + 1..];
        k := k + 1;
        match event {
          case Chunk(data) => buf := buf + data;
          case TransportError => return Err(TransportRaised);
          case Collected(h) => Collect(h);
          case _ => {
            broken := true;
            return Err(SessionBroke);
          }
        }
      }
    }

    /** One request.  `sends` says whether _send returns; `sent` is what went out, if the send was tried. */
    method DoRequest(c: Codec, op: Op, sends: bool, script: seq<Event>) returns (out: Outcome, sent: Option<Request>)
      modifies this
      ensures old(broken) ==> out == Unusable && sent == None && View() == old(View())
      ensures !old(broken) ==> sent == Some(Compose(old(View()), op).1)
      ensures !old(broken) && !sends ==> out == TransportRaised && View() == Compose(old(View()), op).0
      ensures !old(broken) && sends ==>
        var r := RecvSpec(c, Compose(old(View()), op).0, script);
        View() == r.e && out == (match r.got case Ok(reply) => Judge(old(lastId) + 1, reply) case Err(o) => o)
    {
      if broken {
        return Unusable, None;
      }
      lastId := lastId + 1;
      var req := Request(lastId, dead, op);
      dead := [];
      sent := Some(req);
      if !sends {
        return TransportRaised, sent;
      }
      RecvKeepsId(c, View(), script);
      var got := Recv(c, script);
      match got {
        case Ok(reply) => out := Judge(lastId, reply);
        case Err(o) => out := o;
      }
    }
  }

  lemma {:induction false} RecvKeepsId(c: Codec, e: Engine, script: seq<Event>)
    ensures RecvSpec(c, e, script).e.lastId == e.lastId
    decreases |script|, |e.buf|
  {
    if NewlineAt(e.buf) < |e.buf| {
      var (line, e') := CutLine(e);
      if Blank(line) {
        RecvKeepsId(c, e', script);
      }
    } else if script != [] {
      match script[0]
      case Chunk(data) => RecvKeepsId(c, Feed(e, data), script[1..]);
      case Collected(h) => RecvKeepsId(c, e.(dead := e.dead + [h]), script[1..]);
      case _ =>
    }
  }

  /** The complete lines of a stream are all blank. */
  predicate NoLine(s: string)
    decreases |s|
  {
    var n := NewlineAt(s);
    n == |s| || (Blank(s[..n]) && NoLine(s[n + 1..]))
  }

  /** Waits that bring text or nothing, and the text they bring. */
  predicate OnlyText(events: seq<Event>) {
    forall i :: 0 <= i < |events| ==> events[i].Chunk? || events[i].Collected?
  }

  function TextOf(events: seq<Event>): string {
    if events == [] then "" else (if events[0].Chunk? then events[0].data else "") + TextOf(events[1..])
  }

  /** The first k waits brought no line, and then came a timeout, the deadline or the end of the stream. */
  ghost predicate GivesUpAt(buf: string, script: seq<Event>, k: nat) {
    && k <= |script| && OnlyText(script[..k]) && NoLine(buf + TextOf(script[..k]))
    && (k == |script| || script[k].TimedOut? || script[k].DeadlinePassed? || script[k].Eos?)
  }

  ghost predicate GivesUp(buf: string, script: seq<Event>) {
    exists k: nat :: GivesUpAt(buf, script, k)
  }

  lemma {:induction false} NewlineStays(s: string, t: string)
    requires NewlineAt(s) < |s|
    ensures NewlineAt(s + t) == NewlineAt(s)
  {
    if s[0] != '\n' {
      assert (s + t)[1..] == s[1..] + t;
      NewlineStays(s[1..], t);
    }
  }

  /** A complete line at the front decides, whatever comes after it. */
  lemma {:induction false} FrontLine(s: string, t: string)
    requires NewlineAt(s) < |s|
    ensures var n := NewlineAt(s); NoLine(s + t) <==> Blank(s[..n]) && NoLine(s[n + 1..] + t)
  {
    var n := NewlineAt(s);
    NewlineStays(s, t);
    assert (s + t)[..n] == s[..n] && (s + t)[n + 1..] == s[n + 1..] + t;
  }

  /** When a receive fails: the session is broken if and only if the wait was given up before a line was there. After
      any other failure, a transport error or a line that is no reply, it is not. */
  lemma {:induction false} BrokenWhenGivenUp(c: Codec, e: Engine, script: seq<Event>)
    requires !e.broken
    ensures var r := RecvSpec(c, e, script);
      && (r.got.Err? ==> (r.e.broken <==> r.got.error.SessionBroke?))
      && (r.e.broken <==> GivesUp(e.buf, script))
    decreases |script|, |e.buf|
  {
    hide GivesUp;
    var n := NewlineAt(e.buf);
    if n < |e.buf| {
      GivesUpBehind(e.buf, script);
      if Blank(e.buf[..n]) {
        BrokenWhenGivenUp(c, CutLine(e).1, script);
      }
    } else {
      GivesUpNow(e.buf, script);
      if script != [] {
        match script[0]
        case Chunk(data) =>
          BrokenWhenGivenUp(c, Feed(e, data), script[1..]);
          GivesUpLater(e.buf, script, e.buf + data);
        case Collected(h) =>
          BrokenWhenGivenUp(c, e.(dead := e.dead + [h]), script[1..]);
          GivesUpLater(e.buf, script, e.buf);
        case _ => OnlyAtOnce(e.buf, script);
      }
    }
  }

  lemma {:induction false} GivesUpBehind(buf: string, script: seq<Event>)
    requires NewlineAt(buf) < |buf|
    ensures var n := NewlineAt(buf);
      GivesUp(buf, script) <==> Blank(buf[..n]) && GivesUp(buf[n + 1..], script)
  {
    var n := NewlineAt(buf);
    var rest := buf[n + 1..];
    forall k: nat | k <= |script|
      ensures GivesUpAt(buf, script, k) <==> Blank(buf[..n]) && GivesUpAt(rest, script, k)
    {
      FrontLine(buf, TextOf(script[..k]));
    }
    forall k: nat | GivesUpAt(buf, script, k)
      ensures GivesUpAt(rest, script, k)
    {
    }
    if Blank(buf[..n]) {
      forall k: nat | GivesUpAt(rest, script, k)
        ensures GivesUpAt(buf, script, k)
      {
      }
    }
  }

  lemma {:induction false} GivesUpNow(buf: string, script: seq<Event>)
    requires NewlineAt(buf) == |buf|
    ensures script == [] || script[0].TimedOut? || script[0].DeadlinePassed? || script[0].Eos? ==> GivesUp(buf, script)
  {
    assert buf + TextOf(script[..0]) == buf;
    if script == [] || script[0].TimedOut? || script[0].DeadlinePassed? || script[0].Eos? {
      assert GivesUpAt(buf, script, 0);
    }
  }

  lemma {:induction false} OnlyAtOnce(buf: string, script: seq<Event>)
    requires script != [] && !script[0].Chunk? && !script[0].Collected?
    ensures script[0].TransportError? ==> !GivesUp(buf, script)
  {
    forall k: nat | 0 < k <= |script|
      ensures !GivesUpAt(buf, script, k)
    {
      assert script[..k][0] == script[0];
    }
  }

  lemma {:induction false} GivesUpLater(buf: string, script: seq<Event>, more: string)
    requires script != [] && (script[0].Chunk? || script[0].Collected?)
    requires more == if script[0].Chunk? then buf + script[0].data else buf
    ensures GivesUp(buf, script) <==> GivesUp(more, script[1..])
  {
    var text := if script[0].Chunk? then script[0].data else "";
    forall k: nat | k < |script|
      ensures GivesUpAt(buf, script, k + 1) <==> GivesUpAt(more, script[1..], k)
    {
      var now, later := script[..k + 1], script[1..][..k];
      assert now[0] == script[0] && now[1..] == later;
      assert forall i :: 0 <= i < k ==> now[i + 1] == later[i];
      assert forall i :: 0 < i <= k ==> now[i] == later[i - 1];
      assert buf + TextOf(now) == buf + text + TextOf(later) == more + TextOf(later);
    }
    forall k: nat | GivesUpAt(buf, script, k)
      ensures k > 0 && GivesUpAt(more, script[1..], k - 1)
    {
    }
    forall k: nat | GivesUpAt(more, script[1..], k)
      ensures GivesUpAt(buf, script, k + 1)
    {
    }
  }
}
