/**
 The two-party protocol as a transition system: engine, both byte channels, runner, and the collector.

 The steps reuse the engine's and the runner's own functions (Compose, Feed, CutLine, Judge, ServeSpec).  Any send
 or receive may fail, a failed send may leave nothing, part of a line or the whole line on the wire, reply bytes
 arrive in any chunks, and any proxy not used by the request in progress may be collected between any two steps.  Lines
 of another writer, such as a subprocess that inherited the runner's standard output, may come between the replies.
 */
module RemoteProtocol {
  import opened Common
  import opened RemoteMarshal
  import opened RemoteEngine
  import opened RemoteRunner

  const ME: nat := 0

  /** Where _request stands.  Composed: the id is taken and the free list with it, nothing sent yet. */
  datatype Phase = Idle | Composed(call: Call, req: Request) | Waiting(call: Call, req: Request)

  /** A line on its way to the runner; a torn line is one that no longer parses. */
  datatype Wire = Whole(call: Call, req: Request) | Garbled

  /** A line on its way to the engine: a reply of the runner, or somebody else's output. */
  datatype Said = Told(reply: Reply) | Foreign(text: string)

  datatype Answer = Answer(req: Request, reply: Reply)
  datatype Done = Done(id: int, reply: Reply)

  datatype Sys = Sys(
    eng: Engine,
    phase: Phase,
    live: multiset<int>,          // handles of the RemoteObjects that exist, one count per proxy
    down: seq<Wire>,              // request lines not served yet
    torn: bool,                   // an unfinished request line ends the stream
    table: Table,
    running: bool,
    up: string,                   // reply bytes not received yet
    // history
    sent: seq<Wire>,              // every line ever put on the wire
    composed: map<int, Request>,  // the request that took each id
    answers: map<int, Answer>,    // what the runner answered to each id
    replies: seq<Said>,           // every line on the reply stream, in order
    read: nat,                    // how many of them the engine has consumed
    consumed: string,             // the bytes of consumed lines
    received: string,             // every byte received
    issued: seq<RVal>,            // the object stored under handle k is issued[k - 1]
    proxied: multiset<int>,       // the handles proxies were ever made for
    returned: seq<Done>,          // every reply _request accepted, with the id it asked under
    lost: multiset<int>,          // handles neither side will ever release
    faulty: bool,                 // some transport step has failed, or somebody else has written
    spoofed: bool                 // a foreign line was taken for the reply that was awaited
  )

  const INITIAL := Sys(Engine(0, "", false, []), Idle, multiset{}, [], false, Table(map[], 1), true, "",
                    [], map[], map[], [], 0, "", "", [], multiset{}, [], multiset{}, false, false)

  datatype Delivery = Nothing | Part | All

  datatype Action =
    | Begin(call: Call)
    | SendOk
    | SendFails(how: Delivery)
    | Serve(effect: Effect)
    | RunnerDies
    | Print(text: string)
    | Deliver(n: nat)
    | Take
    | Expire
    | ReceiveFails
    | Collect(handle: int)

  /** The handles the request in progress keeps alive through its caller. */
  ghost function Held(p: Phase): set<int> {
    match p
    case Idle => {}
    case Composed(call, _) => CallHandles(call)
    case Waiting(call, _) => CallHandles(call)
  }

  ghost predicate Enabled(c: Codec, s: Sys, a: Action) {
    match a
    case Begin(call) =>
      s.phase.Idle? && !s.eng.broken && EncodeCall(call, ME).Ok? && forall h <- CallHandles(call) :: h in s.live
    case SendOk => s.phase.Composed?
    case SendFails(_) => s.phase.Composed?
    case Serve(_) => s.running && s.down != []
    case RunnerDies => true
    case Print(text) => NoNewline(text)
    case Deliver(n) => s.phase.Waiting? && n <= |s.up|
    case Take => s.phase.Waiting? && NewlineAt(s.eng.buf) < |s.eng.buf|
    case Expire => s.phase.Waiting?
    case ReceiveFails => s.phase.Waiting?
    case Collect(h) => h in s.live && h !in Held(s.phase)
  }

  /** Put the composed request on the wire; after a torn line the two run together. */
  function PutLine(s: Sys): Sys
    requires s.phase.Composed?
  {
    var line := if s.torn then Garbled else Whole(s.phase.call, s.phase.req);
    s.(down := s.down + [line], sent := s.sent + [line], torn := false,
       lost := if s.torn then s.lost + multiset(s.phase.req.free) else s.lost)
  }

  function ToLine(w: Wire): (line: Line)
    ensures !line.Empty?
  {
    match w
    case Whole(_, req) => Parsed(req)
    case Garbled => Malformed
  }

  function ServeStep(c: Codec, s: Sys, effect: Effect): Sys
    requires s.down != []
  {
    var line := s.down[0];
    var (t, reply) := ServeSpec(s.table, ToLine(line), effect);
    s.(down := s.down[1..], table := t, up := s.up + c.render(reply) + "\n", replies := s.replies + [Told(reply)],
       issued := if t.next == s.table.next || effect.Raised? then s.issued else s.issued + [effect.v],
       answers := if line.Whole? then s.answers[line.req.id := Answer(line.req, reply)] else s.answers,
       running := !(line.Whole? && line.req.op.OpShutdown?))
  }

  function CollectStep(s: Sys, h: int): Sys {
    s.(live := s.live - multiset{h}, eng := s.eng.(dead := s.eng.dead + [h]))
  }

  /** The handle a reply carries. */
  function ReplyRef(reply: Reply): multiset<int> {
    if reply.body.Value? && EngineDecode(reply.body.v).NewProxy? then multiset{EngineDecode(reply.body.v).handle}
    else multiset{}
  }

  /** A parsed line reaches the end of _request; `genuine` if it is the runner's. */
  function Accept(s: Sys, reply: Reply, genuine: bool): Sys {
    if Judge(s.eng.lastId, reply).ProtocolError? then
      s.(phase := Idle, lost := if genuine then s.lost + ReplyRef(reply) else s.lost)
    else s.(phase := Idle, returned := s.returned + [Done(s.eng.lastId, reply)], spoofed := s.spoofed || !genuine,
            live := s.live + ReplyRef(reply), proxied := s.proxied + ReplyRef(reply))
  }

  function TakeStep(c: Codec, s: Sys): Sys
    requires NewlineAt(s.eng.buf) < |s.eng.buf|
  {
    var (line, e) := CutLine(s.eng);
    var s' := Taken(s);
    if Blank(line) then s'
    else match c.parse(line)
      case None => s'.(phase := Idle)
      case Some(reply) => Accept(s', reply, s.read < |s.replies| && s.replies[s.read].Told?)
  }

  /** The first line of the buffer is consumed. */
  function Taken(s: Sys): Sys
    requires NewlineAt(s.eng.buf) < |s.eng.buf|
  {
    var (line, e) := CutLine(s.eng);
    s.(eng := e, consumed := s.consumed + line + "\n", read := s.read + 1)
  }

  function PrintStep(s: Sys, text: string): Sys {
    s.(up := s.up + text + "\n", replies := s.replies + [Foreign(text)], faulty := true)
  }

  function Apply(c: Codec, s: Sys, a: Action): Sys
    requires Enabled(c, s, a)
  {
    match a
    case Begin(call) =>
      var (e, req) := Compose(s.eng, EncodeCall(call, ME).value);
      s.(eng := e, phase := Composed(call, req), composed := s.composed[req.id := req])
    case SendOk => PutLine(s).(phase := Waiting(s.phase.call, s.phase.req))
    case SendFails(how) =>
      var s' := if how.All? then PutLine(s)
                else s.(torn := s.torn || how.Part?, lost := s.lost + multiset(s.phase.req.free));
      s'.(phase := Idle, faulty := true)
    case Serve(effect) => ServeStep(c, s, effect)
    case RunnerDies => s.(running := false, faulty := true)
    case Print(text) => PrintStep(s, text)
    case Deliver(n) => DeliverStep(s, n)
    case Take => TakeStep(c, s)
    case Expire => s.(eng := s.eng.(broken := true), phase := Idle, faulty := true)
    case ReceiveFails => s.(phase := Idle, faulty := true)
    case Collect(h) => CollectStep(s, h)
  }

  /** Running a list of actions; None when some action was not enabled. */
  ghost function Exec(c: Codec, s: Sys, acts: seq<Action>): Option<Sys>
    decreases |acts|
  {
    if acts == [] then Some(s)
    else if !Enabled(c, s, acts[0]) then None
    else Exec(c, Apply(c, s, acts[0]), acts[1..])
  }

  ghost predicate Reachable(c: Codec, s: Sys) {
    exists acts :: Exec(c, INITIAL, acts) == Some(s)
  }

  // ---- invariants ------------------------------------------------------------------

  function LineOf(c: Codec, x: Said): string {
    match x case Told(reply) => c.render(reply) case Foreign(text) => text
  }

  function Text(c: Codec, xs: seq<Said>): string {
    if xs == [] then "" else LineOf(c, xs[0]) + "\n" + Text(c, xs[1..])
  }

  ghost predicate IsLine(x: Said) {
    x.Foreign? ==> NoNewline(x.text)
  }

  /** Bytes: received splits into consumed lines and the buffer, and nothing but whole lines is ever on the way. */
  ghost predicate BytesOk(c: Codec, buf: string, up: string, consumed: string, received: string,
                          replies: seq<Said>, read: nat) {
    && read <= |replies| && (forall x <- replies :: IsLine(x))
    && consumed + buf == received
    && consumed == Text(c, replies[..read])
    && buf + up == Text(c, replies[read..])
  }

  /** Ids: each is sent under one request, in order, and answered at most once. */
  ghost predicate IdsOk(lastId: nat, phase: Phase, composed: map<int, Request>, answers: map<int, Answer>,
                        down: seq<Wire>) {
    && (!phase.Idle? ==> phase.req.id == lastId && lastId in composed && composed[lastId] == phase.req)
    && (forall k <- composed :: k <= lastId)
    && (forall k <- answers :: k in composed && answers[k].req == composed[k] && (phase.Composed? ==> k < lastId))
    && (forall i :: 0 <= i < |down| && down[i].Whole? ==>
          var req := down[i].req;
          && req.id in composed && composed[req.id] == req && req.id !in answers
          && (phase.Composed? ==> req.id < lastId))
    && (forall i, j :: 0 <= i < j < |down| && down[i].Whole? && down[j].Whole? ==> down[i].req.id < down[j].req.id)
  }

  ghost predicate AnswersOk(replies: seq<Said>, answers: map<int, Answer>, returned: seq<Done>) {
    && (forall x <- replies :: x.Told? && x.reply.id.Some? ==>
          x.reply.id.value in answers && answers[x.reply.id.value].reply == x.reply)
    && (forall d <- returned :: d.id in answers && answers[d.id].reply == d.reply)
  }

  /** The table holds under each handle what was stored when the handle was issued. */
  ghost predicate TableOk(t: Table, issued: seq<RVal>) {
    && t.next == |issued| + 1
    && forall h <- t.objects :: 1 <= h < t.next && t.objects[h] == issued[h - 1]
  }

  function FreeOf(w: Wire): multiset<int> {
    match w
    case Whole(_, req) => multiset(req.free)
    case Garbled => multiset{}
  }

  function FreeOnWire(down: seq<Wire>): multiset<int> {
    if down == [] then multiset{} else FreeOf(down[0]) + FreeOnWire(down[1..])
  }

  function SaidRef(x: Said): multiset<int> {
    match x case Told(reply) => ReplyRef(reply) case Foreign(_) => multiset{}
  }

  function RefsIn(xs: seq<Said>): multiset<int> {
    if xs == [] then multiset{} else SaidRef(xs[0]) + RefsIn(xs[1..])
  }

  function Unsent(p: Phase): multiset<int> {
    if p.Composed? then multiset(p.req.free) else multiset{}
  }

  /** The lines the engine has not consumed. */
  function Unread(s: Sys): seq<Said> {
    if s.read <= |s.replies| then s.replies[s.read..] else []
  }

  /** Every place a handle of the table can be accounted for: live proxies, the queue of dead ones, the free lists of
      the composed request and of requests on the wire, unread replies; `lost` is empty while no step
      of the transport fails. */
  datatype Places = Places(live: multiset<int>, dead: multiset<int>, unsent: multiset<int>, wire: multiset<int>,
                           unread: multiset<int>, lost: multiset<int>)
  {
    function All(): multiset<int> {
      live + dead + unsent + wire + unread + lost
    }

    function Count(h: int): nat {
      live[h] + dead[h] + unsent[h] + wire[h] + unread[h] + lost[h]
    }
  }

  function PlacesOf(s: Sys): Places {
    Places(s.live, multiset(s.eng.dead), Unsent(s.phase), FreeOnWire(s.down), RefsIn(Unread(s)), s.lost)
  }

  /** The table is the disjoint union of the places: each of its handles is in exactly one, and no other is in any. */
  ghost predicate PlacesOk(p: Places, keys: set<int>) {
    forall h: int :: p.Count(h) == if h in keys then 1 else 0
  }

  /** A handle is proxied at most once, and an unread reply carries one never proxied. */
  ghost predicate ProxiedOk(live: multiset<int>, proxied: multiset<int>, unread: multiset<int>, next: int) {
    && live <= proxied
    && forall h <- proxied + unread :: 1 <= h < next && (proxied + unread)[h] == 1
  }

  /** The request in progress holds live proxies only, and is on the wire as it was encoded. */
  ghost predicate HeldOk(phase: Phase, live: multiset<int>) {
    && (forall h <- Held(phase) :: h in live)
    && (!phase.Idle? ==> EncodeCall(phase.call, ME) == Ok(phase.req.op))
  }

  /** A request not served yet finds every handle it uses. */
  ghost predicate UseOk(down: seq<Wire>, keys: set<int>) {
    && (forall i :: 0 <= i < |down| && down[i].Whole? ==>
          EncodeCall(down[i].call, ME) == Ok(down[i].req.op) && CallHandles(down[i].call) <= keys)
    && (forall i, j :: 0 <= j <= i < |down| && down[i].Whole? && down[j].Whole? ==> NotFreed(down[i].call, down[j].req))
  }

  ghost predicate NotFreed(call: Call, req: Request) {
    forall h <- CallHandles(call) :: h !in req.free
  }

  /** Without transport failures at most one request is anywhere between the two sides. */
  ghost predicate HealthyOk(s: Sys) {
    !s.faulty ==>
      && !s.torn && !s.eng.broken && s.lost == multiset{}
      && match s.phase
         case Waiting(call, req) =>
           || (s.down == [Whole(call, req)] && Unread(s) == [])
           || (s.down == [] && |Unread(s)| == 1 && Unread(s)[0].Told? && Unread(s)[0].reply.id == Some(req.id))
         case _ => s.down == [] && Unread(s) == []
  }

  ghost predicate Inv(c: Codec, s: Sys) {
    && BytesOk(c, s.eng.buf, s.up, s.consumed, s.received, s.replies, s.read)
    && IdsOk(s.eng.lastId, s.phase, s.composed, s.answers, s.down)
    && AnswersOk(s.replies, s.answers, s.returned)
    && TableOk(s.table, s.issued)
    && s.read <= |s.replies|
    && PlacesOk(PlacesOf(s), s.table.objects.Keys)
    && ProxiedOk(s.live, s.proxied, RefsIn(Unread(s)), s.table.next)
    && HeldOk(s.phase, s.live)
    && UseOk(s.down, s.table.objects.Keys)
    && HealthyOk(s)
    && (s.eng.broken ==> s.phase.Idle?)
    && !s.spoofed
  }

  // ---- small facts -----------------------------------------------------------------

  lemma {:induction false} TextAppend(c: Codec, rs: seq<Said>, r: Said)
    ensures Text(c, rs + [r]) == Text(c, rs) + LineOf(c, r) + "\n"
  {
    if rs != [] {
      assert (rs + [r])[1..] == rs[1..] + [r];
      TextAppend(c, rs[1..], r);
    } else {
      assert Text(c, [r]) == LineOf(c, r) + "\n" + Text(c, []);
    }
  }

  lemma {:induction false} WireAppend(down: seq<Wire>, w: Wire)
    ensures FreeOnWire(down + [w]) == FreeOnWire(down) + FreeOf(w)
  {
    if down != [] {
      assert (down + [w])[1..] == down[1..] + [w];
      WireAppend(down[1..], w);
    } else {
      assert down + [w] == [w];
    }
  }

  lemma {:induction false} RefsAppend(rs: seq<Said>, r: Said)
    ensures RefsIn(rs + [r]) == RefsIn(rs) + SaidRef(r)
  {
    if rs != [] {
      assert (rs + [r])[1..] == rs[1..] + [r];
      RefsAppend(rs[1..], r);
    } else {
      assert rs + [r] == [r];
    }
  }

  lemma {:induction false} FreeOnWireMember(down: seq<Wire>, j: nat, h: int)
    requires j < |down| && down[j].Whole? && h in down[j].req.free
    ensures h in FreeOnWire(down)
  {
    if j > 0 {
      FreeOnWireMember(down[1..], j - 1, h);
    }
  }

  /** The first newline of a stream that starts with a line ends that line, wherever the stream is cut. */
  lemma {:induction false} CutAtFirstNewline(buf: string, up: string, line: string, rest: string, n: nat)
    requires n < |buf| && buf[n] == '\n' && NoNewline(buf[..n]) && NoNewline(line)
    requires buf + up == line + "\n" + rest
    ensures buf[..n] == line && buf[n + 1..] + up == rest
  {
    var all := buf + up;
    assert forall i :: 0 <= i < n ==> all[i] == buf[..n][i];
    assert forall i :: 0 <= i < |line| ==> all[i] == line[i];
    assert all[n] == '\n' && all[|line|] == '\n';
    assert n <= |line| && |line| <= n;
    assert buf[..n] == all[..n] && line == all[..n];
    assert buf[n + 1..] + up == all[n + 1..] && rest == all[n + 1..];
  }

  /** However the stream was chunked, the first complete line of the buffer is the first line not consumed. */
  lemma {:induction false} FirstLineIsFirstReply(c: Codec, buf: string, up: string, xs: seq<Said>)
    requires Lawful(c) && forall x <- xs :: IsLine(x)
    requires buf + up == Text(c, xs)
    requires NewlineAt(buf) < |buf|
    ensures xs != []
    ensures buf[..NewlineAt(buf)] == LineOf(c, xs[0])
    ensures buf[NewlineAt(buf) + 1..] + up == Text(c, xs[1..])
  {
    assert |buf + up| > 0;
    FirstIsLine(c, xs);
    hide Lawful, NoNewline, Blank, IsLine, LineOf;
    CutAtFirstNewline(buf, up, LineOf(c, xs[0]), Text(c, xs[1..]), NewlineAt(buf));
  }

  lemma {:induction false} FirstIsLine(c: Codec, xs: seq<Said>)
    requires Lawful(c) && xs != [] && IsLine(xs[0])
    ensures NoNewline(LineOf(c, xs[0]))
  {
    if xs[0].Told? { assert LineFor(c, xs[0].reply); }
  }

  // ---- how handles move ------------------------------------------------------------

  lemma {:induction false} MoveDeadToRequest(p: Places, keys: set<int>)
    requires PlacesOk(p, keys) && p.unsent == multiset{}
    ensures PlacesOk(p.(dead := multiset{}, unsent := p.dead), keys)
  {
    forall h
      ensures p.(dead := multiset{}, unsent := p.dead).Count(h) == p.Count(h)
    {
    }
  }

  lemma {:induction false} MoveRequestToWire(p: Places, keys: set<int>)
    requires PlacesOk(p, keys)
    ensures PlacesOk(p.(unsent := multiset{}, wire := p.wire + p.unsent), keys)
  {
    forall h
      ensures p.(unsent := multiset{}, wire := p.wire + p.unsent).Count(h) == p.Count(h)
    {
    }
  }

  lemma {:induction false} LoseRequest(p: Places, keys: set<int>)
    requires PlacesOk(p, keys)
    ensures PlacesOk(p.(unsent := multiset{}, lost := p.lost + p.unsent), keys)
  {
    forall h
      ensures p.(unsent := multiset{}, lost := p.lost + p.unsent).Count(h) == p.Count(h)
    {
    }
  }

  lemma {:induction false} MoveReplyToProxy(p: Places, ref: multiset<int>, rest: multiset<int>, keys: set<int>)
    requires PlacesOk(p, keys) && p.unread == ref + rest
    ensures PlacesOk(p.(unread := rest, live := p.live + ref), keys)
    ensures PlacesOk(p.(unread := rest, lost := p.lost + ref), keys)
  {
    forall h
      ensures p.(unread := rest, live := p.live + ref).Count(h) == p.Count(h)
      ensures p.(unread := rest, lost := p.lost + ref).Count(h) == p.Count(h)
    {
    }
  }

  lemma {:induction false} MoveProxyToDead(p: Places, x: int, keys: set<int>)
    requires PlacesOk(p, keys) && x in p.live
    ensures PlacesOk(p.(live := p.live - multiset{x}, dead := p.dead + multiset{x}), keys)
  {
    forall h
      ensures p.(live := p.live - multiset{x}, dead := p.dead + multiset{x}).Count(h) == p.Count(h)
    {
    }
  }

  /** Serving: the freed handles leave table and wire together, a stashed result joins table and reply together. */
  lemma {:induction false} MoveThroughRunner(p: Places, freed: multiset<int>, wire: multiset<int>, ref: multiset<int>,
                          keys: set<int>, keys': set<int>)
    requires PlacesOk(p, keys) && p.wire == freed + wire
    requires forall h :: (if h in keys' then 1 else 0) + freed[h] == (if h in keys then 1 else 0) + ref[h]
    ensures PlacesOk(p.(wire := wire, unread := p.unread + ref), keys')
  {
    forall h
      ensures p.(wire := wire, unread := p.unread + ref).Count(h) == if h in keys' then 1 else 0
    {
      assert p.Count(h) == if h in keys then 1 else 0;
      assert (if h in keys' then 1 else 0) + freed[h] == (if h in keys then 1 else 0) + ref[h];
    }
  }

  // ---- each step keeps the invariant ------------------------------------------------

  lemma {:induction false} BeginKeeps(c: Codec, s: Sys, call: Call)
    requires Inv(c, s) && Enabled(c, s, Begin(call))
    ensures Inv(c, Apply(c, s, Begin(call)))
  {
    hide BytesOk, IdsOk, AnswersOk, TableOk, ProxiedOk, UseOk, PlacesOk;
    var s' := Apply(c, s, Begin(call));
    BeginIds(s.eng.lastId, s.phase, s.composed, s.answers, s.down, call, s'.phase.req);
    MoveDeadToRequest(PlacesOf(s), s.table.objects.Keys);
    assert PlacesOf(s') == PlacesOf(s).(dead := multiset{}, unsent := PlacesOf(s).dead);
  }

  lemma {:induction false} BeginIds(lastId: nat, phase: Phase, composed: map<int, Request>, answers: map<int, Answer>,
                                    down: seq<Wire>,
                 call: Call, req: Request)
    requires IdsOk(lastId, phase, composed, answers, down)
    requires req.id == lastId + 1
    ensures IdsOk(lastId + 1, Composed(call, req), composed[req.id := req], answers, down)
  {
  }

  lemma {:induction false} SendIds(lastId: nat, phase: Phase, composed: map<int, Request>, answers: map<int, Answer>,
                                   down: seq<Wire>,
                w: Wire, phase': Phase)
    requires IdsOk(lastId, phase, composed, answers, down) && phase.Composed?
    requires w.Garbled? || w == Whole(phase.call, phase.req)
    requires phase'.Idle? || phase' == Waiting(phase.call, phase.req)
    ensures IdsOk(lastId, phase', composed, answers, down + [w])
  {
  }

  lemma {:induction false} SendUse(down: seq<Wire>, keys: set<int>, call: Call, req: Request)
    requires UseOk(down, keys)
    requires EncodeCall(call, ME) == Ok(req.op) && CallHandles(call) <= keys && NotFreed(call, req)
    requires forall j :: 0 <= j < |down| && down[j].Whole? ==> NotFreed(call, down[j].req)
    ensures UseOk(down + [Whole(call, req)], keys)
  {
  }

  /** What the request in progress uses is live, hence neither queued for release nor being released. */
  lemma {:induction false} HeldIsNotFreed(s: Sys)
    requires PlacesOk(PlacesOf(s), s.table.objects.Keys) && HeldOk(s.phase, s.live) && s.phase.Composed?
    ensures CallHandles(s.phase.call) <= s.table.objects.Keys
    ensures NotFreed(s.phase.call, s.phase.req)
    ensures forall j :: 0 <= j < |s.down| && s.down[j].Whole? ==> NotFreed(s.phase.call, s.down[j].req)
  {
    forall h | h in CallHandles(s.phase.call)
      ensures h in s.table.objects.Keys && h !in multiset(s.phase.req.free) && h !in FreeOnWire(s.down)
    {
      assert h in s.live;
      assert PlacesOf(s).Count(h) <= 1;
    }
    forall j, h | 0 <= j < |s.down| && s.down[j].Whole? && h in CallHandles(s.phase.call)
      ensures h !in s.down[j].req.free
    {
      if h in s.down[j].req.free {
        FreeOnWireMember(s.down, j, h);
      }
    }
  }

  lemma {:induction false} PutLineUse(s: Sys)
    requires PlacesOk(PlacesOf(s), s.table.objects.Keys) && HeldOk(s.phase, s.live) && s.phase.Composed?
    requires UseOk(s.down, s.table.objects.Keys)
    ensures UseOk(PutLine(s).down, s.table.objects.Keys)
  {
    HeldIsNotFreed(s);
    if s.torn {
      GarbledUse(s.down, s.table.objects.Keys);
    } else {
      SendUse(s.down, s.table.objects.Keys, s.phase.call, s.phase.req);
    }
  }

  lemma {:induction false} PutLinePlaces(s: Sys, p: Phase)
    requires PlacesOk(PlacesOf(s), s.table.objects.Keys) && s.phase.Composed? && !p.Composed?
    ensures PlacesOk(PlacesOf(PutLine(s).(phase := p)), s.table.objects.Keys)
  {
    var places, s' := PlacesOf(s), PutLine(s).(phase := p);
    WireAppend(s.down, s'.down[|s.down|]);
    if s.torn {
      LoseRequest(places, s.table.objects.Keys);
      assert PlacesOf(s') == places.(unsent := multiset{}, lost := places.lost + places.unsent);
    } else {
      MoveRequestToWire(places, s.table.objects.Keys);
      assert PlacesOf(s') == places.(unsent := multiset{}, wire := places.wire + places.unsent);
    }
  }

  lemma {:induction false} PutLineKeeps(c: Codec, s: Sys, p: Phase, faulty: bool)
    requires Inv(c, s) && s.phase.Composed?
    requires (p == Idle && faulty) || (p == Waiting(s.phase.call, s.phase.req) && faulty == s.faulty)
    ensures Inv(c, PutLine(s).(phase := p, faulty := faulty))
  {
    hide BytesOk, IdsOk, AnswersOk, TableOk, ProxiedOk, UseOk, PlacesOk;
    var s' := PutLine(s).(phase := p, faulty := faulty);
    PutLineUse(s);
    PutLinePlaces(s, p);
    SendIds(s.eng.lastId, s.phase, s.composed, s.answers, s.down, s'.down[|s.down|], p);
    assert PlacesOf(s') == PlacesOf(PutLine(s).(phase := p));
  }

  lemma {:induction false} GarbledUse(down: seq<Wire>, keys: set<int>)
    requires UseOk(down, keys)
    ensures UseOk(down + [Garbled], keys)
  {
  }

  lemma {:induction false} SendFailsKeeps(c: Codec, s: Sys, torn: bool)
    requires Inv(c, s) && s.phase.Composed?
    ensures Inv(c, s.(torn := torn, lost := s.lost + multiset(s.phase.req.free), phase := Idle, faulty := true))
  {
    hide BytesOk, IdsOk, AnswersOk, TableOk, ProxiedOk, UseOk, PlacesOk;
    var s' := s.(torn := torn, lost := s.lost + multiset(s.phase.req.free), phase := Idle, faulty := true);
    IdleIds(s.eng.lastId, s.phase, s.composed, s.answers, s.down);
    LoseRequest(PlacesOf(s), s.table.objects.Keys);
    assert PlacesOf(s') == PlacesOf(s).(unsent := multiset{}, lost := PlacesOf(s).lost + PlacesOf(s).unsent);
  }

  lemma {:induction false} IdleIds(lastId: nat, phase: Phase, composed: map<int, Request>, answers: map<int, Answer>,
                                   down: seq<Wire>)
    requires IdsOk(lastId, phase, composed, answers, down)
    ensures IdsOk(lastId, Idle, composed, answers, down)
    ensures !phase.Idle? ==> phase.req.id == lastId
  {
  }

  function DeliverStep(s: Sys, n: nat): Sys
    requires n <= |s.up|
  {
    s.(eng := Feed(s.eng, s.up[..n]), up := s.up[n..], received := s.received + s.up[..n])
  }

  lemma {:induction false} DeliverBytes(c: Codec, s: Sys, n: nat)
    requires n <= |s.up| && BytesOk(c, s.eng.buf, s.up, s.consumed, s.received, s.replies, s.read)
    ensures var s' := DeliverStep(s, n); BytesOk(c, s'.eng.buf, s'.up, s'.consumed, s'.received, s'.replies, s'.read)
  {
    var s' := DeliverStep(s, n);
    assert s.up == s.up[..n] + s.up[n..];
    assert s'.eng.buf + s'.up == s.eng.buf + s.up;
    assert s'.consumed + s'.eng.buf == s'.received;
  }

  lemma {:induction false} DeliverKeeps(c: Codec, s: Sys, n: nat)
    requires Inv(c, s) && s.phase.Waiting? && n <= |s.up|
    ensures Inv(c, DeliverStep(s, n))
  {
    hide BytesOk, IdsOk, AnswersOk, TableOk, ProxiedOk, UseOk, PlacesOk;
    DeliverBytes(c, s, n);
    assert PlacesOf(DeliverStep(s, n)) == PlacesOf(s);
  }

  lemma {:induction false} AbandonKeeps(c: Codec, s: Sys, broken: bool)
    requires Inv(c, s) && s.phase.Waiting?
    ensures Inv(c, s.(eng := s.eng.(broken := broken), phase := Idle, faulty := true))
  {
    hide BytesOk, IdsOk, AnswersOk, TableOk, ProxiedOk, UseOk, PlacesOk;
    var s' := s.(eng := s.eng.(broken := broken), phase := Idle, faulty := true);
    IdleIds(s.eng.lastId, s.phase, s.composed, s.answers, s.down);
    assert PlacesOf(s') == PlacesOf(s);
  }

  lemma {:induction false} ShrinkLive(live: multiset<int>, live': multiset<int>, proxied: multiset<int>,
                                      unread: multiset<int>, next: int)
    requires ProxiedOk(live, proxied, unread, next) && live' <= live
    ensures ProxiedOk(live', proxied, unread, next)
  {
  }

  lemma {:induction false} CollectPlaces(s: Sys, h: int)
    requires PlacesOk(PlacesOf(s), s.table.objects.Keys) && h in s.live
    requires ProxiedOk(s.live, s.proxied, RefsIn(Unread(s)), s.table.next)
    ensures var s' := CollectStep(s, h);
      && PlacesOk(PlacesOf(s'), s'.table.objects.Keys)
      && ProxiedOk(s'.live, s'.proxied, RefsIn(Unread(s')), s'.table.next)
  {
    hide PlacesOk, ProxiedOk;
    var s', places := CollectStep(s, h), PlacesOf(s);
    MoveProxyToDead(places, h, s.table.objects.Keys);
    ShrinkLive(s.live, s'.live, s.proxied, RefsIn(Unread(s)), s.table.next);
    assert PlacesOf(s') == places.(live := places.live - multiset{h}, dead := places.dead + multiset{h});
  }

  lemma {:induction false} CollectHealthy(s: Sys, h: int)
    requires HealthyOk(s)
    ensures HealthyOk(CollectStep(s, h))
  {
  }

  lemma {:induction false} CollectKeeps(c: Codec, s: Sys, h: int)
    requires Inv(c, s) && h in s.live && h !in Held(s.phase)
    ensures Inv(c, CollectStep(s, h))
  {
    hide BytesOk, IdsOk, AnswersOk, TableOk, ProxiedOk, UseOk, PlacesOk, HealthyOk;
    CollectPlaces(s, h);
    CollectHealthy(s, h);
  }

  lemma {:induction false} TakeBytes(c: Codec, e: Engine, up: string, consumed: string, received: string,
                                     replies: seq<Said>, read: nat)
    requires Lawful(c)
    requires BytesOk(c, e.buf, up, consumed, received, replies, read) && NewlineAt(e.buf) < |e.buf|
    ensures read < |replies|
    ensures var (line, e') := CutLine(e);
      && line == LineOf(c, replies[read])
      && BytesOk(c, e'.buf, up, consumed + line + "\n", received, replies, read + 1)
  {
    hide IsLine, LineOf, Text, Lawful, NewlineAt, CutLine;
    NothingUnread(c, replies, read);
    FirstLineIsFirstReply(c, e.buf, up, replies[read..]);
    LineIsCut(e, consumed);
    assert replies[read..][1..] == replies[read + 1..];
    assert replies[..read + 1] == replies[..read] + [replies[read]];
    TextAppend(c, replies[..read], replies[read]);
  }

  lemma {:induction false} NothingUnread(c: Codec, replies: seq<Said>, read: nat)
    requires read <= |replies|
    ensures forall x <- replies[read..] :: x in replies
  {
  }

  lemma {:induction false} LineIsCut(e: Engine, consumed: string)
    requires NewlineAt(e.buf) < |e.buf|
    ensures var (line, e') := CutLine(e);
      && line == e.buf[..NewlineAt(e.buf)] && e'.buf == e.buf[NewlineAt(e.buf) + 1..]
      && consumed + line + "\n" + e'.buf == consumed + e.buf
  {
    var (line, e') := CutLine(e);
    assert e.buf == line + "\n" + e'.buf;
  }

  lemma {:induction false} TakeKeeps(c: Codec, s: Sys)
    requires Lawful(c) && Inv(c, s) && s.phase.Waiting? && NewlineAt(s.eng.buf) < |s.eng.buf|
    ensures s.read < |s.replies| && TakeStep(c, s) == TakeNext(c, s)
    ensures !TakeStep(c, s).spoofed ==> Inv(c, TakeStep(c, s))
  {
    hide Lawful, BytesOk, IdsOk, AnswersOk, TableOk, ProxiedOk, UseOk, PlacesOk, HealthyOk, PlacesOf, NewlineAt,
      CutLine, TakeStep, AcceptNext, LineOf;
    TakeBytes(c, s.eng, s.up, s.consumed, s.received, s.replies, s.read);
    TakeIs(c, s);
    if s.replies[s.read].Told? {
      AcceptKeeps(c, s);
    } else {
      SkipKeeps(c, s, s.phase);
      SkipKeeps(c, s, Idle);
      TakeForeign(c, s);
    }
  }

  lemma {:induction false} TakeIs(c: Codec, s: Sys)
    requires Lawful(c) && s.read < |s.replies| && NewlineAt(s.eng.buf) < |s.eng.buf|
    requires CutLine(s.eng).0 == LineOf(c, s.replies[s.read])
    ensures TakeStep(c, s) == TakeNext(c, s)
  {
    hide Accept, Taken, NewlineAt, Blank, NoNewline;
    var next := s.replies[s.read];
    if next.Told? { assert LineFor(c, next.reply); }
  }

  /** Unless it is taken for the awaited reply, a foreign line is only consumed, and ends the request or not. */
  lemma {:induction false} TakeForeign(c: Codec, s: Sys)
    requires s.read < |s.replies| && s.replies[s.read].Foreign? && NewlineAt(s.eng.buf) < |s.eng.buf|
    ensures var s' := TakeNext(c, s);
      !s'.spoofed ==> s' == Taken(s).(phase := s.phase) || s' == Taken(s).(phase := Idle)
  {
    hide CutLine, NewlineAt, Blank, Judge, ReplyRef;
  }

  /** Take, once it is known which line it is. */
  function TakeNext(c: Codec, s: Sys): Sys
    requires s.read < |s.replies| && NewlineAt(s.eng.buf) < |s.eng.buf|
  {
    match s.replies[s.read]
    case Told(reply) => AcceptNext(s)
    case Foreign(text) =>
      if Blank(text) then Taken(s)
      else match c.parse(text)
        case None => Taken(s).(phase := Idle)
        case Some(reply) => Accept(Taken(s), reply, false)
  }

  /** A reply of the runner is taken. */
  function AcceptNext(s: Sys): Sys
    requires s.read < |s.replies| && s.replies[s.read].Told? && NewlineAt(s.eng.buf) < |s.eng.buf|
  {
    Accept(Taken(s), s.replies[s.read].reply, true)
  }

  /** A foreign line is taken, and is not the awaited reply. */
  lemma {:induction false} SkipKeeps(c: Codec, s: Sys, p: Phase)
    requires Inv(c, s) && s.read < |s.replies| && s.replies[s.read].Foreign? && NewlineAt(s.eng.buf) < |s.eng.buf|
    requires s.phase.Waiting? && (p == s.phase || p == Idle)
    requires var s' := Taken(s); BytesOk(c, s'.eng.buf, s.up, s'.consumed, s.received, s.replies, s.read + 1)
    ensures Inv(c, Taken(s).(phase := p))
  {
    hide BytesOk, IdsOk, AnswersOk, TableOk, ProxiedOk, UseOk, PlacesOk, CutLine, Unread, RefsIn, Unsent;
    var s' := Taken(s).(phase := p);
    IdleIds(s.eng.lastId, s.phase, s.composed, s.answers, s.down);
    SkipPlaces(s, p);
  }

  lemma {:induction false} SkipPlaces(s: Sys, p: Phase)
    requires s.read < |s.replies| && s.replies[s.read].Foreign? && NewlineAt(s.eng.buf) < |s.eng.buf|
    requires s.phase.Waiting? && (p == s.phase || p == Idle)
    ensures var s' := Taken(s).(phase := p);
      && Unread(s) == [s.replies[s.read]] + Unread(s')
      && RefsIn(Unread(s')) == RefsIn(Unread(s)) && PlacesOf(s') == PlacesOf(s)
    ensures HealthyOk(s) ==> s.faulty
  {
    hide CutLine;
    var s' := Taken(s).(phase := p);
    assert Unread(s) == [s.replies[s.read]] + Unread(s');
    assert Unread(s)[0] == s.replies[s.read] && Unread(s)[1..] == Unread(s');
    assert RefsIn(Unread(s)) == SaidRef(s.replies[s.read]) + RefsIn(Unread(s'));
  }

  lemma {:induction false} AcceptUnread(s: Sys)
    requires s.read < |s.replies| && s.replies[s.read].Told? && NewlineAt(s.eng.buf) < |s.eng.buf|
    ensures var s' := AcceptNext(s);
      && Unread(s) == [s.replies[s.read]] + Unread(s')
      && RefsIn(Unread(s)) == ReplyRef(s.replies[s.read].reply) + RefsIn(Unread(s'))
  {
    hide CutLine;
    var s' := AcceptNext(s);
    assert Unread(s) == [s.replies[s.read]] + Unread(s');
  }

  lemma {:induction false} AcceptPlaces(s: Sys)
    requires s.read < |s.replies| && s.replies[s.read].Told? && NewlineAt(s.eng.buf) < |s.eng.buf|
    requires PlacesOk(PlacesOf(s), s.table.objects.Keys) && !s.phase.Composed?
    requires ProxiedOk(s.live, s.proxied, RefsIn(Unread(s)), s.table.next)
    ensures var s' := AcceptNext(s);
      && PlacesOk(PlacesOf(s'), s'.table.objects.Keys)
      && ProxiedOk(s'.live, s'.proxied, RefsIn(Unread(s')), s'.table.next)
      && Unread(s) == [s.replies[s.read]] + Unread(s')
  {
    hide PlacesOk, Unread, RefsIn, CutLine, ReplyRef, ProxiedOk;
    var s', reply, places := AcceptNext(s), s.replies[s.read].reply, PlacesOf(s);
    AcceptUnread(s);
    var ref, rest := ReplyRef(reply), RefsIn(Unread(s'));
    MoveReplyToProxy(places, ref, rest, s.table.objects.Keys);
    ProxyReply(s.live, s.proxied, ref, rest, s.table.next);
    if Judge(s.eng.lastId, reply).ProtocolError? {
      assert PlacesOf(s') == places.(unread := rest, lost := places.lost + ref);
    } else {
      assert PlacesOf(s') == places.(unread := rest, live := places.live + ref);
    }
  }

  lemma {:induction false} ProxyReply(live: multiset<int>, proxied: multiset<int>, ref: multiset<int>,
                                      rest: multiset<int>, next: int)
    requires ProxiedOk(live, proxied, ref + rest, next)
    ensures ProxiedOk(live, proxied, rest, next)
    ensures ProxiedOk(live + ref, proxied + ref, rest, next)
  {
    var all := proxied + (ref + rest);
    forall h | h in proxied + rest
      ensures 1 <= h < next && (proxied + rest)[h] == 1
    {
      assert all[h] == (proxied + rest)[h] + ref[h];
      assert h in all;
    }
    forall h | h in proxied + ref + rest
      ensures 1 <= h < next && (proxied + ref + rest)[h] == 1
    {
      assert all[h] == (proxied + ref + rest)[h];
      assert h in all;
    }
  }

  lemma {:induction false} AcceptAnswers(s: Sys)
    requires s.read < |s.replies| && s.replies[s.read].Told? && NewlineAt(s.eng.buf) < |s.eng.buf|
    requires AnswersOk(s.replies, s.answers, s.returned)
    ensures var s' := AcceptNext(s); AnswersOk(s'.replies, s'.answers, s'.returned)
  {
    hide CutLine;
    assert s.replies[s.read] in s.replies;
  }

  lemma {:induction false} AcceptHealthy(s: Sys)
    requires s.phase.Waiting? && s.read < |s.replies| && s.replies[s.read].Told?
    requires NewlineAt(s.eng.buf) < |s.eng.buf|
    requires HealthyOk(s) && s.phase.req.id == s.eng.lastId
    requires Unread(s) == [s.replies[s.read]] + Unread(AcceptNext(s))
    ensures HealthyOk(AcceptNext(s))
  {
    hide CutLine, Unread;
    assert Unread(s)[0] == s.replies[s.read];
  }

  lemma {:induction false} AcceptKeeps(c: Codec, s: Sys)
    requires Inv(c, s) && s.phase.Waiting? && s.read < |s.replies| && s.replies[s.read].Told?
    requires NewlineAt(s.eng.buf) < |s.eng.buf|
    requires var s' := Taken(s); BytesOk(c, s'.eng.buf, s.up, s'.consumed, s.received, s.replies, s.read + 1)
    ensures Inv(c, AcceptNext(s))
  {
    hide BytesOk, IdsOk, AnswersOk, TableOk, ProxiedOk, UseOk, PlacesOk, HealthyOk, CutLine, PlacesOf, Unread, Judge,
      ReplyRef, RefsIn, NewlineAt;
    AcceptPlaces(s);
    AcceptAnswers(s);
    IdleIds(s.eng.lastId, s.phase, s.composed, s.answers, s.down);
    AcceptHealthy(s);
  }

  // Serving a line.

  /** Serving only ever frees what the request asked to free and issues the next handle. */
  lemma {:induction false} ServeTable(t: Table, line: Line, effect: Effect, issued: seq<RVal>)
    requires TableOk(t, issued) && !line.Empty?
    ensures var t' := ServeSpec(t, line, effect).0;
      && (t'.next == t.next || (t'.next == t.next + 1 && effect.Produced?))
      && TableOk(t', if t'.next == t.next || effect.Raised? then issued else issued + [effect.v])
  {
  }

  /** The table after serving: what was freed left it, what the reply refers to joined it. */
  lemma {:induction false} ServeKeys(t: Table, line: Wire, effect: Effect, h: int)
    requires FreeOf(line)[h] <= if h in t.objects then 1 else 0
    requires t.next !in t.objects
    ensures var (t', reply) := ServeSpec(t, ToLine(line), effect);
      && (if h in t'.objects then 1 else 0) + FreeOf(line)[h] == (if h in t.objects then 1 else 0) + ReplyRef(reply)[h]
  {
    if line.Whole? {
      assert h in line.req.free <==> h in multiset(line.req.free);
      if effect.Produced? {
        EngineProxiesExactlyTheStashed(effect.v, t.next);
      }
    }
  }

  lemma {:induction false} ServeRef(t: Table, line: Wire, effect: Effect)
    ensures var (t', reply) := ServeSpec(t, ToLine(line), effect);
      || (ReplyRef(reply) == multiset{} && t'.next == t.next)
      || (ReplyRef(reply) == multiset{t.next} && t'.next == t.next + 1)
  {
    if line.Whole? && effect.Produced? {
      EngineProxiesExactlyTheStashed(effect.v, t.next);
    }
  }

  lemma {:induction false} ServeUnread(c: Codec, s: Sys, effect: Effect)
    requires s.read <= |s.replies| && s.down != []
    ensures var s', reply := ServeStep(c, s, effect), ServeSpec(s.table, ToLine(s.down[0]), effect).1;
      Unread(s') == Unread(s) + [Told(reply)] && RefsIn(Unread(s')) == RefsIn(Unread(s)) + ReplyRef(reply)
  {
    hide ServeSpec;
    var s' := ServeStep(c, s, effect);
    var reply := ServeSpec(s.table, ToLine(s.down[0]), effect).1;
    assert s'.replies[s'.read..] == s.replies[s.read..] + [Told(reply)];
    RefsAppend(Unread(s), Told(reply));
  }

  lemma {:induction false} ServeKeysAll(s: Sys, effect: Effect)
    requires TableOk(s.table, s.issued) && PlacesOk(PlacesOf(s), s.table.objects.Keys) && s.down != []
    ensures var (t, reply) := ServeSpec(s.table, ToLine(s.down[0]), effect);
      forall h :: (if h in t.objects.Keys then 1 else 0) + FreeOf(s.down[0])[h]
               == (if h in s.table.objects.Keys then 1 else 0) + ReplyRef(reply)[h]
  {
    hide ServeSpec;
    var (t, reply) := ServeSpec(s.table, ToLine(s.down[0]), effect);
    forall h
      ensures (if h in t.objects.Keys then 1 else 0) + FreeOf(s.down[0])[h]
           == (if h in s.table.objects.Keys then 1 else 0) + ReplyRef(reply)[h]
    {
      assert PlacesOf(s).Count(h) == if h in s.table.objects.Keys then 1 else 0;
      ServeKeys(s.table, s.down[0], effect, h);
    }
  }

  lemma {:induction false} ServePlaces(c: Codec, s: Sys, effect: Effect)
    requires TableOk(s.table, s.issued) && PlacesOk(PlacesOf(s), s.table.objects.Keys)
    requires s.read <= |s.replies| && s.down != []
    ensures var s' := ServeStep(c, s, effect); PlacesOk(PlacesOf(s'), s'.table.objects.Keys)
    ensures Unread(ServeStep(c, s, effect)) == Unread(s) + [Told(ServeSpec(s.table, ToLine(s.down[0]), effect).1)]
  {
    hide ServeSpec, PlacesOk;
    var s', p := ServeStep(c, s, effect), PlacesOf(s);
    var (t, reply) := ServeSpec(s.table, ToLine(s.down[0]), effect);
    var freed, wire, keys, keys' := FreeOf(s.down[0]), FreeOnWire(s.down[1..]), s.table.objects.Keys, t.objects.Keys;
    ServeUnread(c, s, effect);
    ServeKeysAll(s, effect);
    MoveThroughRunner(p, freed, wire, ReplyRef(reply), keys, keys');
    assert PlacesOf(s') == p.(wire := wire, unread := p.unread + ReplyRef(reply));
  }

  lemma {:induction false} ServeProxied(c: Codec, s: Sys, effect: Effect)
    requires ProxiedOk(s.live, s.proxied, RefsIn(Unread(s)), s.table.next)
    requires s.down != [] && s.table.next >= 1 && s.read <= |s.replies|
    ensures var s' := ServeStep(c, s, effect); ProxiedOk(s'.live, s'.proxied, RefsIn(Unread(s')), s'.table.next)
  {
    hide ServeSpec, Unread, RefsIn;
    var s' := ServeStep(c, s, effect);
    var reply := ServeSpec(s.table, ToLine(s.down[0]), effect).1;
    ServeUnread(c, s, effect);
    ServeRef(s.table, s.down[0], effect);
    var had, has := s.proxied + RefsIn(Unread(s)), s'.proxied + RefsIn(Unread(s'));
    forall h | h in has
      ensures 1 <= h < s'.table.next && has[h] == 1
    {
      assert has[h] == had[h] + ReplyRef(reply)[h];
      assert s.table.next !in had;
    }
  }

  lemma {:induction false} ServeIds(s: Sys, t: Table, reply: Reply)
    requires s.down != [] && s.down[0].Whole? && reply.id == Some(s.down[0].req.id)
    requires IdsOk(s.eng.lastId, s.phase, s.composed, s.answers, s.down)
    requires AnswersOk(s.replies, s.answers, s.returned)
    ensures var answers := s.answers[s.down[0].req.id := Answer(s.down[0].req, reply)];
      && IdsOk(s.eng.lastId, s.phase, s.composed, answers, s.down[1..])
      && AnswersOk(s.replies + [Told(reply)], answers, s.returned)
  {
  }

  lemma {:induction false} GarbledIds(lastId: nat, phase: Phase, composed: map<int, Request>, answers: map<int, Answer>,
                                      down: seq<Wire>)
    requires IdsOk(lastId, phase, composed, answers, down) && down != []
    ensures IdsOk(lastId, phase, composed, answers, down[1..])
  {
  }

  lemma {:induction false} ServeUse(down: seq<Wire>, keys: set<int>, keys': set<int>)
    requires UseOk(down, keys) && down != []
    requires forall h :: h in keys && (down[0].Whole? ==> h !in down[0].req.free) ==> h in keys'
    ensures UseOk(down[1..], keys')
  {
    var rest := down[1..];
    forall i | 0 <= i < |rest| && rest[i].Whole?
      ensures EncodeCall(rest[i].call, ME) == Ok(rest[i].req.op) && CallHandles(rest[i].call) <= keys'
    {
      assert rest[i] == down[i + 1];
      assert down[0].Whole? ==> NotFreed(down[i + 1].call, down[0].req);
      forall h | h in CallHandles(rest[i].call)
        ensures h in keys'
      {
        assert h in keys;
      }
    }
    forall i, j | 0 <= j <= i < |rest| && rest[i].Whole? && rest[j].Whole?
      ensures NotFreed(rest[i].call, rest[j].req)
    {
      assert rest[i] == down[i + 1] && rest[j] == down[j + 1];
    }
  }

  lemma {:induction false} ServeBytes(c: Codec, s: Sys, reply: Reply)
    requires BytesOk(c, s.eng.buf, s.up, s.consumed, s.received, s.replies, s.read)
    ensures BytesOk(c, s.eng.buf, s.up + c.render(reply) + "\n", s.consumed, s.received, s.replies + [Told(reply)],
                    s.read)
  {
    SaidBytes(c, s, Told(reply));
  }

  lemma {:induction false} SaidBytes(c: Codec, s: Sys, x: Said)
    requires BytesOk(c, s.eng.buf, s.up, s.consumed, s.received, s.replies, s.read) && IsLine(x)
    ensures BytesOk(c, s.eng.buf, s.up + LineOf(c, x) + "\n", s.consumed, s.received, s.replies + [x], s.read)
  {
    hide IsLine, LineOf;
    var all := s.replies + [x];
    assert all[s.read..] == s.replies[s.read..] + [x];
    assert all[..s.read] == s.replies[..s.read];
    TextAppend(c, s.replies[s.read..], x);
  }

  lemma {:induction false} PrintKeeps(c: Codec, s: Sys, text: string)
    requires Inv(c, s) && NoNewline(text)
    ensures Inv(c, PrintStep(s, text))
  {
    hide BytesOk, IdsOk, AnswersOk, TableOk, ProxiedOk, UseOk, PlacesOk, NoNewline, Unread, RefsIn, PlacesOf;
    SaidBytes(c, s, Foreign(text));
    PrintPlaces(s, text);
    PrintAnswers(s, text);
  }

  lemma {:induction false} PrintPlaces(s: Sys, text: string)
    requires s.read <= |s.replies|
    ensures var s' := PrintStep(s, text); RefsIn(Unread(s')) == RefsIn(Unread(s)) && PlacesOf(s') == PlacesOf(s)
  {
    var s' := PrintStep(s, text);
    assert Unread(s') == Unread(s) + [Foreign(text)];
    RefsAppend(Unread(s), Foreign(text));
  }

  lemma {:induction false} PrintAnswers(s: Sys, text: string)
    requires AnswersOk(s.replies, s.answers, s.returned)
    ensures AnswersOk(PrintStep(s, text).replies, s.answers, s.returned)
  {
  }

  lemma {:induction false} ServeNext(t: Table, issued: seq<RVal>)
    requires TableOk(t, issued)
    ensures t.next >= 1
  {
  }

  lemma {:induction false} NoAnswer(replies: seq<Said>, reply: Reply, answers: map<int, Answer>, returned: seq<Done>)
    requires AnswersOk(replies, answers, returned) && reply.id.None?
    ensures AnswersOk(replies + [Told(reply)], answers, returned)
  {
  }

  lemma {:induction false} ServeStepUse(s: Sys, effect: Effect)
    requires UseOk(s.down, s.table.objects.Keys) && s.down != []
    ensures UseOk(s.down[1..], ServeSpec(s.table, ToLine(s.down[0]), effect).0.objects.Keys)
  {
    ServeUse(s.down, s.table.objects.Keys, ServeSpec(s.table, ToLine(s.down[0]), effect).0.objects.Keys);
  }

  lemma {:induction false} ServeReplyId(t: Table, line: Line, effect: Effect)
    requires !line.Empty?
    ensures ServeSpec(t, line, effect).1.id == if line.Parsed? then Some(line.req.id) else None
  {
    hide Stash, DispatchInputs, Released;
  }

  lemma {:induction false} ServeStepIds(s: Sys, effect: Effect)
    requires s.down != []
    requires IdsOk(s.eng.lastId, s.phase, s.composed, s.answers, s.down)
    requires AnswersOk(s.replies, s.answers, s.returned)
    ensures var reply := ServeSpec(s.table, ToLine(s.down[0]), effect).1;
      var answers := if s.down[0].Whole? then s.answers[s.down[0].req.id := Answer(s.down[0].req, reply)]
        else s.answers;
      && IdsOk(s.eng.lastId, s.phase, s.composed, answers, s.down[1..])
      && AnswersOk(s.replies + [Told(reply)], answers, s.returned)
  {
    hide IdsOk, AnswersOk, ServeSpec;
    var (t, reply) := ServeSpec(s.table, ToLine(s.down[0]), effect);
    ServeReplyId(s.table, ToLine(s.down[0]), effect);
    if s.down[0].Whole? {
      ServeIds(s, t, reply);
    } else {
      GarbledIds(s.eng.lastId, s.phase, s.composed, s.answers, s.down);
      NoAnswer(s.replies, reply, s.answers, s.returned);
    }
  }

  lemma {:induction false} ServeHealthy(c: Codec, s: Sys, effect: Effect)
    requires HealthyOk(s) && s.down != [] && s.read <= |s.replies|
    ensures HealthyOk(ServeStep(c, s, effect))
  {
    hide ServeSpec, RefsIn;
    ServeUnread(c, s, effect);
    ServeReplyId(s.table, ToLine(s.down[0]), effect);
  }

  lemma {:induction false} ServeKeeps(c: Codec, s: Sys, effect: Effect)
    requires Inv(c, s) && s.running && s.down != []
    ensures Inv(c, ServeStep(c, s, effect))
  {
    hide BytesOk, IdsOk, AnswersOk, TableOk, ProxiedOk, UseOk, PlacesOk, PlacesOf, HealthyOk, ServeSpec, Unread, RefsIn;
    ServeTable(s.table, ToLine(s.down[0]), effect, s.issued);
    ServeNext(s.table, s.issued);
    ServePlaces(c, s, effect);
    ServeProxied(c, s, effect);
    ServeBytes(c, s, ServeSpec(s.table, ToLine(s.down[0]), effect).1);
    ServeStepUse(s, effect);
    ServeStepIds(s, effect);
    ServeHealthy(c, s, effect);
  }

  lemma {:induction false} DeathKeeps(c: Codec, s: Sys)
    requires Inv(c, s)
    ensures Inv(c, s.(running := false, faulty := true))
  {
    hide BytesOk, IdsOk, AnswersOk, TableOk, ProxiedOk, UseOk, PlacesOk, HeldOk;
    assert PlacesOf(s.(running := false, faulty := true)) == PlacesOf(s);
  }

  lemma {:induction false} StepKeeps(c: Codec, s: Sys, a: Action)
    requires Lawful(c) && Inv(c, s) && Enabled(c, s, a)
    ensures !Apply(c, s, a).spoofed ==> Inv(c, Apply(c, s, a))
  {
    hide Inv, ServeStep, TakeStep, DeliverStep, CollectStep, PrintStep, NewlineAt;
    match a
    case Begin(call) => BeginKeeps(c, s, call);
    case SendOk => PutLineKeeps(c, s, Waiting(s.phase.call, s.phase.req), s.faulty);
    case SendFails(how) =>
      if how.All? { PutLineKeeps(c, s, Idle, true); } else { SendFailsKeeps(c, s, s.torn || how.Part?); }
    case Serve(effect) => ServeKeeps(c, s, effect);
    case RunnerDies => DeathKeeps(c, s);
    case Print(text) => PrintKeeps(c, s, text);
    case Deliver(n) => DeliverKeeps(c, s, n);
    case Take => TakeKeeps(c, s);
    case Expire => AbandonKeeps(c, s, true);
    case ReceiveFails =>
      assert s.eng.(broken := s.eng.broken) == s.eng;
      AbandonKeeps(c, s, s.eng.broken);
    case Collect(h) => CollectKeeps(c, s, h);
  }

  /** Once a foreign line was taken for a reply, that stays so. */
  lemma {:induction false} SpoofedStays(c: Codec, s: Sys, acts: seq<Action>)
    requires Exec(c, s, acts).Some? && s.spoofed
    ensures Exec(c, s, acts).value.spoofed
    decreases |acts|
  {
    hide Apply, Enabled;
    if acts != [] {
      StepStaysSpoofed(c, s, acts[0]);
      SpoofedStays(c, Apply(c, s, acts[0]), acts[1..]);
    }
  }

  lemma {:induction false} StepStaysSpoofed(c: Codec, s: Sys, a: Action)
    requires Enabled(c, s, a) && s.spoofed
    ensures Apply(c, s, a).spoofed
  {
    hide ServeStep, TakeStep, NewlineAt, CallHandles, EncodeCall, NoNewline;
    match a
    case Serve(effect) => ServeStaysSpoofed(c, s, effect);
    case Take => TakeStaysSpoofed(c, s);
    case _ =>
  }

  lemma {:induction false} ServeStaysSpoofed(c: Codec, s: Sys, effect: Effect)
    requires s.down != []
    ensures ServeStep(c, s, effect).spoofed == s.spoofed
  {
    hide ServeSpec;
  }

  lemma {:induction false} TakeStaysSpoofed(c: Codec, s: Sys)
    requires NewlineAt(s.eng.buf) < |s.eng.buf| && s.spoofed
    ensures TakeStep(c, s).spoofed
  {
    hide CutLine, NewlineAt, Blank, Judge, ReplyRef;
  }

  lemma {:induction false} RunKeeps(c: Codec, s: Sys, acts: seq<Action>)
    requires Lawful(c) && Inv(c, s) && Exec(c, s, acts).Some? && !Exec(c, s, acts).value.spoofed
    ensures Inv(c, Exec(c, s, acts).value)
    decreases |acts|
  {
    hide Inv, Apply, Enabled;
    if acts != [] {
      var s' := Apply(c, s, acts[0]);
      if s'.spoofed { SpoofedStays(c, s', acts[1..]); }
      StepKeeps(c, s, acts[0]);
      RunKeeps(c, s', acts[1..]);
    }
  }

  lemma {:induction false} InitKeeps(c: Codec)
    ensures Inv(c, INITIAL)
  {
    assert Unread(INITIAL) == [];
    assert PlacesOf(INITIAL) == Places(multiset{}, multiset{}, multiset{}, multiset{}, multiset{}, multiset{});
  }

  lemma {:induction false} ReachableKeeps(c: Codec, s: Sys)
    requires Lawful(c) && Reachable(c, s) && !s.spoofed
    ensures Inv(c, s)
  {
    hide Inv, Apply, Enabled;
    InitKeeps(c);
    var acts :| Exec(c, INITIAL, acts) == Some(s);
    RunKeeps(c, INITIAL, acts);
  }
}
