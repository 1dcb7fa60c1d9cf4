/** What every reachable state and every run of the remote session protocol satisfies. */
module RemoteSafety {
  import opened Common
  import opened RemoteEngine
  import opened RemoteRunner
  import opened RemoteProtocol

  /** A live proxy stands for exactly the object its handle was issued for; no handle is proxied twice. */
  lemma {:induction false} ProxiesStayValid(c: Codec, s: Sys)
    requires Lawful(c) && Reachable(c, s) && !s.spoofed
    ensures forall h <- s.live :: 1 <= h <= |s.issued| && h in s.table.objects && s.table.objects[h] == s.issued[h - 1]
    ensures forall h <- s.proxied :: s.proxied[h] == 1
    ensures s.live <= s.proxied
  {
    ReachableKeeps(c, s);
    hide BytesOk, IdsOk, AnswersOk, UseOk, HealthyOk, PlacesOf, Unread;
    var places := PlacesOf(s);
    assert places.live == s.live by { PlacesLive(s); }
    forall h | h in s.live
      ensures h in s.table.objects
    {
      assert places.Count(h) == if h in s.table.objects.Keys then 1 else 0;
    }
    forall h | h in s.proxied
      ensures s.proxied[h] == 1
    {
      assert h in s.proxied + RefsIn(Unread(s));
    }
  }

  lemma {:induction false} PlacesLive(s: Sys)
    ensures PlacesOf(s).live == s.live
  {
  }

  /** Handles are issued once: what was issued is never changed by any later run, only extended. */
  lemma {:induction false} IssuedOnlyGrows(c: Codec, s: Sys, acts: seq<Action>)
    requires Exec(c, s, acts).Some?
    ensures s.issued <= Exec(c, s, acts).value.issued
    decreases |acts|
  {
    hide Apply, Enabled;
    if acts != [] {
      StepIssues(c, s, acts[0]);
      IssuedOnlyGrows(c, Apply(c, s, acts[0]), acts[1..]);
    }
  }

  lemma {:induction false} ServeIssues(c: Codec, s: Sys, effect: Effect)
    requires s.down != []
    ensures s.issued <= ServeStep(c, s, effect).issued
  {
    hide ServeSpec;
  }

  lemma {:induction false} TakeFrame(c: Codec, s: Sys)
    requires NewlineAt(s.eng.buf) < |s.eng.buf|
    ensures var s' := TakeStep(c, s);
      && s'.issued == s.issued && s'.sent == s.sent && s'.replies == s.replies && s'.eng.lastId == s.eng.lastId
  {
    hide Blank, NewlineAt, Accept;
    forall reply, genuine
      ensures var s' := Accept(Taken(s), reply, genuine);
        s'.issued == s.issued && s'.sent == s.sent && s'.replies == s.replies && s'.eng.lastId == s.eng.lastId
    {
      AcceptFrame(Taken(s), reply, genuine);
    }
  }

  lemma {:induction false} AcceptFrame(s: Sys, reply: Reply, genuine: bool)
    ensures var s' := Accept(s, reply, genuine);
      && s'.issued == s.issued && s'.sent == s.sent && s'.replies == s.replies && s'.eng == s.eng && s'.read == s.read
      && s'.phase.Idle? && (s'.spoofed <==> s.spoofed || (!genuine && reply.id == Some(s.eng.lastId)))
      && s'.returned
         == s.returned + (if reply.id == Some(s.eng.lastId) then [Done(s.eng.lastId, reply)] else [])
  {
    hide ReplyRef, Judge;
    JudgeIs(s.eng.lastId, reply);
    if reply.id != Some(s.eng.lastId) { assert s.returned + [] == s.returned; }
  }

  lemma {:induction false} JudgeIs(lastId: nat, reply: Reply)
    ensures Judge(lastId, reply).ProtocolError? <==> reply.id != Some(lastId)
  {
  }

  lemma {:induction false} TakenFrame(s: Sys)
    requires NewlineAt(s.eng.buf) < |s.eng.buf|
    ensures var s' := Taken(s);
      && s'.phase == s.phase && s'.read == s.read + 1 && s'.replies == s.replies && s'.eng == CutLine(s.eng).1
      && s'.returned == s.returned && s'.spoofed == s.spoofed && s'.eng.lastId == s.eng.lastId
  {
  }

  lemma {:induction false} PutLineFrame(s: Sys)
    requires s.phase.Composed?
    ensures var s' := PutLine(s);
      s'.issued == s.issued && s'.replies == s.replies && s'.eng == s.eng && s'.spoofed == s.spoofed
  {
  }

  lemma {:induction false} StepIssues(c: Codec, s: Sys, a: Action)
    requires Enabled(c, s, a)
    ensures s.issued <= Apply(c, s, a).issued
  {
    hide ServeStep, TakeStep, PutLine, CutLine, NewlineAt, CallHandles, EncodeCall, NoNewline;
    match a
    case Serve(effect) => ServeIssues(c, s, effect);
    case Take => TakeFrame(c, s);
    case SendOk => PutLineFrame(s);
    case SendFails(_) => PutLineFrame(s);
    case _ =>
  }

  /** The request at the head of the line is dispatched on the caller's own arguments, each proxy replaced by the
      object its handle was issued for: the releases riding on the request never remove one of them. */
  lemma {:induction false} ArgumentsArrive(c: Codec, s: Sys)
    requires Lawful(c) && Reachable(c, s) && !s.spoofed
    requires s.down != [] && s.down[0].Whole?
    ensures var (call, req, t) := (s.down[0].call, s.down[0].req, Released(s.table, s.down[0].req.free));
      && CallHandles(call) <= t.objects.Keys
      && (forall h <- CallHandles(call) :: 1 <= h <= |s.issued| && t.objects[h] == s.issued[h - 1])
      && DispatchInputs(req.op, t.objects) == Ok(ResolvedCall(call, t.objects))
  {
    ReachableKeeps(c, s);
    hide BytesOk, IdsOk, AnswersOk, HealthyOk, PlacesOk, ProxiedOk, HeldOk, DispatchInputs;
    var call, req := s.down[0].call, s.down[0].req;
    var t := Released(s.table, req.free);
    assert NotFreed(call, req);
    forall h | h in CallHandles(call)
      ensures h in t.objects
    {
      assert h in s.table.objects;
    }
    DispatchSeesTheCall(call, ME, t.objects);
  }

  /** Conservation: the table is the disjoint union of all the places a handle can be in. */
  lemma {:induction false} TableIsAllPlaces(c: Codec, s: Sys)
    requires Lawful(c) && Reachable(c, s) && !s.spoofed
    ensures PlacesOf(s).All() == multiset(s.table.objects.Keys)
  {
    hide *;
    ReachableKeeps(c, s);
    InvPlaces(c, s);
    AllIsTheSum(PlacesOf(s), s.table.objects.Keys);
  }

  lemma {:induction false} InvPlaces(c: Codec, s: Sys)
    requires Inv(c, s)
    ensures PlacesOk(PlacesOf(s), s.table.objects.Keys)
  {
    hide BytesOk, IdsOk, AnswersOk, UseOk, HealthyOk, PlacesOf, TableOk, ProxiedOk, PlacesOk, HeldOk;
  }

  lemma {:induction false} AllIsTheSum(p: Places, keys: set<int>)
    requires PlacesOk(p, keys)
    ensures p.All() == multiset(keys)
  {
    forall h
      ensures p.All()[h] == multiset(keys)[h]
    {
      assert p.Count(h) == if h in keys then 1 else 0;
    }
  }

  /** No leak: while no transport step has failed nothing is lost, and between requests the table holds only the live
      proxies' objects and those whose release is queued. */
  lemma {:induction false} NothingLeaks(c: Codec, s: Sys)
    requires Lawful(c) && Reachable(c, s) && !s.spoofed && !s.faulty
    ensures s.lost == multiset{}
    ensures s.phase.Idle? ==> multiset(s.table.objects.Keys) == s.live + multiset(s.eng.dead)
  {
    ReachableKeeps(c, s);
    TableIsAllPlaces(c, s);
    hide BytesOk, IdsOk, AnswersOk, UseOk, TableOk, ProxiedOk, PlacesOk;
  }

  /** Pairing: every reply _request ever accepted is what the runner answered to that very request, whatever was
      timed out, abandoned or late before. */
  lemma {:induction false} RepliesArePaired(c: Codec, s: Sys)
    requires Lawful(c) && Reachable(c, s) && !s.spoofed
    ensures forall d <- s.returned ::
      d.id in s.answers && d.id in s.composed && s.answers[d.id] == Answer(s.composed[d.id], d.reply)
  {
    ReachableKeeps(c, s);
    hide BytesOk, TableOk, UseOk, HealthyOk, PlacesOk, PlacesOf, ProxiedOk;
  }

  /** What a line says to the engine. */
  function Says(c: Codec, x: Said): Option<Reply> {
    match x
    case Told(reply) => Some(reply)
    case Foreign(text) => if Blank(text) then None else c.parse(text)
  }

  /** ... and it is accepted under the request in progress, the only one then waiting; any line but a blank one ends
      that request. */
  lemma {:induction false} OnlyTheAwaitedReplyReturns(c: Codec, s: Sys)
    requires Lawful(c) && Reachable(c, s) && !s.spoofed && s.phase.Waiting? && NewlineAt(s.eng.buf) < |s.eng.buf|
    ensures s.read < |s.replies|
    ensures var s', said, id := TakeStep(c, s), Says(c, s.replies[s.read]), s.phase.req.id;
      && (s'.phase.Idle? <==> !Blank(LineOf(c, s.replies[s.read])))
      && s'.returned == s.returned + (if said.Some? && said.value.id == Some(id) then [Done(id, said.value)] else [])
  {
    hide *;
    ReachableKeeps(c, s);
    WaitingUnderLastId(c, s);
    TakeKeeps(c, s);
    TakeReturns(c, s);
  }

  lemma {:induction false} WaitingUnderLastId(c: Codec, s: Sys)
    requires Inv(c, s) && s.phase.Waiting?
    ensures s.phase.req.id == s.eng.lastId
  {
    hide BytesOk, AnswersOk, TableOk, UseOk, HealthyOk, PlacesOk, PlacesOf, ProxiedOk, HeldOk;
  }

  lemma {:induction false} TakeReturns(c: Codec, s: Sys)
    requires Lawful(c) && s.phase.Waiting? && s.read < |s.replies| && NewlineAt(s.eng.buf) < |s.eng.buf|
    ensures var s', x, said := TakeNext(c, s), s.replies[s.read], Says(c, s.replies[s.read]);
      && (s'.phase.Idle? <==> !Blank(LineOf(c, x)))
      && s'.read == s.read + 1 && s'.replies == s.replies && s'.eng == CutLine(s.eng).1
      && s'.returned == s.returned + (if said.Some? && said.value.id == Some(s.eng.lastId)
                                      then [Done(s.eng.lastId, said.value)] else [])
  {
    hide CutLine, NewlineAt, Blank, NoNewline, Accept, Taken;
    TakenFrame(s);
    assert s.returned + [] == s.returned;
    match s.replies[s.read]
    case Told(reply) =>
      assert LineFor(c, reply);
      AcceptFrame(Taken(s), reply, true);
    case Foreign(text) =>
      if c.parse(text).Some? { AcceptFrame(Taken(s), c.parse(text).value, false); }
  }

  /** A foreign line can only be taken for a reply if it reads as one, with the id of a request. */
  lemma {:induction false} SpoofedByAReply(c: Codec, s: Sys)
    requires Lawful(c) && Reachable(c, s) && s.spoofed
    ensures Spoofs(c, s)
  {
    hide Inv, Exec;
    InitKeeps(c);
    var acts :| Exec(c, INITIAL, acts) == Some(s);
    RunSpoofs(c, INITIAL, acts);
  }

  ghost predicate Spoofs(c: Codec, s: Sys) {
    exists x <- s.replies :: IsSpoof(c, x, s.eng.lastId)
  }

  ghost predicate IsSpoof(c: Codec, x: Said, lastId: nat) {
    x.Foreign? && Says(c, x).Some? && Says(c, x).value.id.Some? && Says(c, x).value.id.value <= lastId
  }

  lemma {:induction false} RunSpoofs(c: Codec, s: Sys, acts: seq<Action>)
    requires Lawful(c) && Exec(c, s, acts).Some? && Exec(c, s, acts).value.spoofed && (Inv(c, s) || Spoofs(c, s))
    ensures Spoofs(c, Exec(c, s, acts).value)
    decreases |acts|
  {
    hide Inv, Apply, Enabled, Spoofs, Lawful;
    if acts == [] {
      if Inv(c, s) { NotSpoofed(c, s); }
    } else {
      var s' := Apply(c, s, acts[0]);
      if Spoofs(c, s) {
        StepKeepsLines(c, s, acts[0]);
        SpoofsOn(c, s, s');
      } else {
        StepKeeps(c, s, acts[0]);
        if s'.spoofed { StepSpoofs(c, s, acts[0]); }
      }
      RunSpoofs(c, s', acts[1..]);
    }
  }

  lemma {:induction false} NotSpoofed(c: Codec, s: Sys)
    requires Inv(c, s)
    ensures !s.spoofed
  {
  }

  lemma {:induction false} StepKeepsLines(c: Codec, s: Sys, a: Action)
    requires Enabled(c, s, a)
    ensures s.replies <= Apply(c, s, a).replies && s.eng.lastId <= Apply(c, s, a).eng.lastId
  {
    hide ServeStep, TakeStep, PutLine, CutLine, NewlineAt, CallHandles, EncodeCall, NoNewline;
    match a
    case Serve(effect) => ServeFrame(c, s, effect);
    case Take => TakeFrame(c, s);
    case SendOk => PutLineFrame(s);
    case SendFails(_) => PutLineFrame(s);
    case _ =>
  }

  lemma {:induction false} SpoofsOn(c: Codec, s: Sys, s': Sys)
    requires Spoofs(c, s) && s.replies <= s'.replies && s.eng.lastId <= s'.eng.lastId
    ensures Spoofs(c, s')
  {
    hide Says;
    var x :| x in s.replies && IsSpoof(c, x, s.eng.lastId);
    assert x in s'.replies;
  }

  lemma {:induction false} StepSpoofs(c: Codec, s: Sys, a: Action)
    requires Lawful(c) && Inv(c, s) && Enabled(c, s, a) && Apply(c, s, a).spoofed
    ensures Spoofs(c, Apply(c, s, a))
  {
    hide Inv, TakeStep, Lawful, NewlineAt, ServeSpec, CallHandles, EncodeCall;
    NotSpoofed(c, s);
    if !a.Take? { OnlyTakeSpoofs(c, s, a); }
    TakeKeeps(c, s);
    TakeSpoofs(c, s);
    var x := s.replies[s.read];
    assert x in TakeStep(c, s).replies;
  }

  lemma {:induction false} OnlyTakeSpoofs(c: Codec, s: Sys, a: Action)
    requires Enabled(c, s, a) && !a.Take?
    ensures Apply(c, s, a).spoofed == s.spoofed
  {
    hide TakeStep, ServeStep, PutLine, NewlineAt, CallHandles, EncodeCall, NoNewline;
    match a
    case Serve(effect) => ServeFrame(c, s, effect);
    case SendOk => PutLineFrame(s);
    case SendFails(_) => PutLineFrame(s);
    case _ =>
  }

  lemma {:induction false} TakeSpoofs(c: Codec, s: Sys)
    requires s.read < |s.replies| && NewlineAt(s.eng.buf) < |s.eng.buf| && !s.spoofed && TakeNext(c, s).spoofed
    ensures TakeNext(c, s).replies == s.replies && IsSpoof(c, s.replies[s.read], TakeNext(c, s).eng.lastId)
  {
    hide CutLine, NewlineAt, Blank, Accept, Taken;
    TakenFrame(s);
    match s.replies[s.read]
    case Told(reply) => AcceptFrame(Taken(s), reply, true);
    case Foreign(text) =>
      if c.parse(text).Some? { AcceptFrame(Taken(s), c.parse(text).value, false); }
  }

  /** Bytes: consumed lines and buffer make up what was received, which with what is still on the way makes up the
      text of all replies; so the consumed lines are whole replies, in order, for every chunking. */
  lemma {:induction false} BytesAreConserved(c: Codec, s: Sys)
    requires Lawful(c) && Reachable(c, s) && !s.spoofed
    ensures s.read <= |s.replies|
    ensures s.consumed == Text(c, s.replies[..s.read])
    ensures s.consumed + s.eng.buf == s.received
    ensures s.received + s.up == Text(c, s.replies)
  {
    hide *;
    ReachableKeeps(c, s);
    InvBytes(c, s);
    TextConcat(c, s.replies[..s.read], s.replies[s.read..]);
    assert s.replies[..s.read] + s.replies[s.read..] == s.replies;
    assert s.received + s.up == s.consumed + (s.eng.buf + s.up);
  }

  lemma {:induction false} InvBytes(c: Codec, s: Sys)
    requires Inv(c, s)
    ensures s.read <= |s.replies|
    ensures s.consumed == Text(c, s.replies[..s.read])
    ensures s.consumed + s.eng.buf == s.received
    ensures s.eng.buf + s.up == Text(c, s.replies[s.read..])
  {
    hide IdsOk, AnswersOk, TableOk, UseOk, HealthyOk, PlacesOk, PlacesOf, ProxiedOk, HeldOk, Text;
  }

  lemma {:induction false} TextConcat(c: Codec, xs: seq<Said>, ys: seq<Said>)
    ensures Text(c, xs + ys) == Text(c, xs) + Text(c, ys)
  {
    if xs == [] {
      assert xs + ys == ys;
    } else {
      assert (xs + ys)[1..] == xs[1..] + ys;
      TextConcat(c, xs[1..], ys);
    }
  }

  /** Once broken, a session sends nothing, returns nothing and stays broken, whatever happens next. */
  lemma {:induction false} BrokenIsFinal(c: Codec, s: Sys, acts: seq<Action>)
    requires s.eng.broken && s.phase.Idle? && Exec(c, s, acts).Some?
    ensures var s' := Exec(c, s, acts).value;
      s'.eng.broken && s'.phase.Idle? && s'.sent == s.sent && s'.returned == s.returned
    decreases |acts|
  {
    hide Apply, Enabled;
    if acts != [] {
      BrokenStays(c, s, acts[0]);
      BrokenIsFinal(c, Apply(c, s, acts[0]), acts[1..]);
    }
  }

  lemma {:induction false} BrokenStays(c: Codec, s: Sys, a: Action)
    requires s.eng.broken && s.phase.Idle? && Enabled(c, s, a)
    ensures var s' := Apply(c, s, a);
      s'.eng.broken && s'.phase.Idle? && s'.sent == s.sent && s'.returned == s.returned
  {
    hide ServeStep, TakeStep, PutLine, NewlineAt, EncodeCall, CallHandles, NoNewline;
    if a.Serve? { ServeFrame(c, s, a.effect); }
  }

  /** In a reachable state a broken session is between requests, so BrokenIsFinal applies to it. */
  lemma {:induction false} BrokenIsIdle(c: Codec, s: Sys)
    requires Lawful(c) && Reachable(c, s) && !s.spoofed && s.eng.broken
    ensures s.phase.Idle?
  {
    ReachableKeeps(c, s);
    hide BytesOk, IdsOk, AnswersOk, TableOk, UseOk, HealthyOk, PlacesOk, PlacesOf, ProxiedOk;
  }

  /** Not every failure breaks the session: a receive that raises anything but a timeout leaves it usable while its
      reply is still to come, so the pairing above rests on the id check. */
  lemma {:induction false} ReceiveErrorLeavesSessionUsable(c: Codec)
    ensures exists s :: Reachable(c, s) && s.faulty && !s.eng.broken && s.phase.Idle? && s.running && s.down != []
                        && Enabled(c, s, Begin(Shutdown))
  {
    var m := ImportModule("m");
    var s1 := Apply(c, INITIAL, Begin(m));
    var s2 := Apply(c, s1, SendOk);
    var s3 := Apply(c, s2, ReceiveFails);
    assert Exec(c, s2, [ReceiveFails]) == Some(s3) by {
      assert Exec(c, s3, []) == Some(s3);
      assert [ReceiveFails][1..] == [];
    }
    assert Exec(c, s1, [SendOk, ReceiveFails]) == Some(s3) by { assert [SendOk, ReceiveFails][1..] == [ReceiveFails]; }
    assert Exec(c, INITIAL, [Begin(m), SendOk, ReceiveFails]) == Some(s3) by {
      assert [Begin(m), SendOk, ReceiveFails][1..] == [SendOk, ReceiveFails];
    }
    assert Reachable(c, s3);
  }

  // ---- the engine's own code is a run of the system ----------------------------------

  /** What happens while _recv waits: its events, lines the runner serves and lines that others write meanwhile. */
  datatype Move = Waits(event: Event) | Serves(effect: Effect) | Prints(text: string)

  function EventsOf(moves: seq<Move>): seq<Event> {
    if moves == [] then []
    else (if moves[0].Waits? then [moves[0].event] else []) + EventsOf(moves[1..])
  }

  /** The moves can happen from s: chunks are what is on the way, collected proxies are ones nobody holds. */
  ghost predicate Possible(c: Codec, s: Sys, moves: seq<Move>)
    decreases |moves|, |s.eng.buf|
  {
    if NewlineAt(s.eng.buf) < |s.eng.buf| then Blank(CutLine(s.eng).0) ==> Possible(c, Taken(s), moves)
    else if moves == [] then true
    else match moves[0]
    case Serves(effect) => s.running && s.down != [] && Possible(c, ServeStep(c, s, effect), moves[1..])
    case Prints(text) => NoNewline(text) && Possible(c, PrintStep(s, text), moves[1..])
    case Waits(Chunk(data)) => data <= s.up && Possible(c, DeliverStep(s, |data|), moves[1..])
    case Waits(Collected(h)) => h in s.live && h !in Held(s.phase) && Possible(c, CollectStep(s, h), moves[1..])
    case _ => true
  }

  function RecvActions(c: Codec, e: Engine, moves: seq<Move>): seq<Action>
    decreases |moves|, |e.buf|
  {
    if NewlineAt(e.buf) < |e.buf| then
      [Take] + if Blank(CutLine(e).0) then RecvActions(c, CutLine(e).1, moves) else []
    else if moves == [] then [Expire]
    else match moves[0]
      case Serves(effect) => [Action.Serve(effect)] + RecvActions(c, e, moves[1..])
      case Prints(text) => [Action.Print(text)] + RecvActions(c, e, moves[1..])
      case Waits(Chunk(data)) => [Deliver(|data|)] + RecvActions(c, Feed(e, data), moves[1..])
      case Waits(Collected(h)) => [Action.Collect(h)] + RecvActions(c, e.(dead := e.dead + [h]), moves[1..])
      case Waits(TransportError) => [ReceiveFails]
      case _ => [Expire]
  }

  /** The actions leave the engine as _recv does, and the reply it gives is what the last line that was taken says. */
  ghost predicate Agrees(c: Codec, s: Sys, script: seq<Event>, acts: seq<Action>) {
    var (r, end) := (RecvSpec(c, s.eng, script), Exec(c, s, acts));
    && end.Some? && end.value.eng == r.e
    && (r.got.Ok? ==> s.read < end.value.read <= |end.value.replies|
                      && Says(c, end.value.replies[end.value.read - 1]) == Some(r.got.value))
    && (r.got.Err? ==> s.read <= end.value.read && end.value.returned == s.returned)
  }

  /** _recv, waiting in any state of the invariant with the runner working meanwhile, is a run of the system. */
  lemma {:induction false} RecvIsARun(c: Codec, s: Sys, moves: seq<Move>)
    requires Lawful(c) && Inv(c, s) && s.phase.Waiting? && Possible(c, s, moves)
    ensures Agrees(c, s, EventsOf(moves), RecvActions(c, s.eng, moves))
    decreases |moves|, |s.eng.buf|
  {
    hide Inv, ServeStep, ServeSpec, Agrees, RecvSpec, Exec, Lawful, EventsOf, NewlineAt, Blank, NoNewline, TakeStep,
      TakeNext;
    if NewlineAt(s.eng.buf) < |s.eng.buf| {
      if Blank(CutLine(s.eng).0) {
        BlankKeeps(c, s);
        assert |Taken(s).eng.buf| < |s.eng.buf|;
        RecvIsARun(c, Taken(s), moves);
        BlankThenRecv(c, s, EventsOf(moves), RecvActions(c, CutLine(s.eng).1, moves));
      } else {
        TakeEndsRecv(c, s, EventsOf(moves));
        assert RecvActions(c, s.eng, moves) == [Take] + [] == [Take];
      }
    } else if moves == [] || (moves[0].Waits? && !moves[0].event.Chunk? && !moves[0].event.Collected?) {
      FailureEndsRecv(c, s, moves);
    } else {
      match moves[0]
      case Serves(effect) =>
        ServeKeeps(c, s, effect);
        ServeFrame(c, s, effect);
        RecvIsARun(c, ServeStep(c, s, effect), moves[1..]);
        ServeThenRecv(c, s, effect, moves, RecvActions(c, s.eng, moves[1..]));
      case Prints(text) =>
        PrintKeeps(c, s, text);
        RecvIsARun(c, PrintStep(s, text), moves[1..]);
        PrintThenRecv(c, s, text, moves, RecvActions(c, s.eng, moves[1..]));
      case Waits(Chunk(data)) =>
        assert DeliverStep(s, |data|).eng == Feed(s.eng, data) by { assert s.up[..|data|] == data; }
        DeliverKeeps(c, s, |data|);
        RecvIsARun(c, DeliverStep(s, |data|), moves[1..]);
        ChunkThenRecv(c, s, data, moves, RecvActions(c, Feed(s.eng, data), moves[1..]));
      case Waits(Collected(h)) =>
        CollectKeeps(c, s, h);
        RecvIsARun(c, CollectStep(s, h), moves[1..]);
        CollectThenRecv(c, s, h, moves, RecvActions(c, s.eng.(dead := s.eng.dead + [h]), moves[1..]));
    }
  }

  lemma {:induction false} ServeThenRecv(c: Codec, s: Sys, effect: Effect, moves: seq<Move>, acts: seq<Action>)
    requires moves != [] && moves[0] == Serves(effect) && Enabled(c, s, Action.Serve(effect))
    requires Agrees(c, ServeStep(c, s, effect), EventsOf(moves[1..]), acts)
    ensures Agrees(c, s, EventsOf(moves), [Action.Serve(effect)] + acts)
  {
    hide ServeStep, ServeSpec, RecvSpec, Exec;
    ServeFrame(c, s, effect);
    assert EventsOf(moves) == EventsOf(moves[1..]);
    ExecCons(c, s, Action.Serve(effect), acts);
  }

  lemma {:induction false} TakeBlank(c: Codec, s: Sys)
    requires NewlineAt(s.eng.buf) < |s.eng.buf| && Blank(CutLine(s.eng).0)
    ensures TakeStep(c, s) == Taken(s)
  {
    hide CutLine, NewlineAt, Blank;
  }

  lemma {:induction false} BlankKeeps(c: Codec, s: Sys)
    requires Lawful(c) && Inv(c, s) && s.phase.Waiting? && NewlineAt(s.eng.buf) < |s.eng.buf| && Blank(CutLine(s.eng).0)
    ensures Inv(c, Taken(s)) && Taken(s).phase == s.phase && Taken(s).eng == CutLine(s.eng).1
  {
    hide Inv, Lawful, CutLine, NewlineAt, Blank, TakeStep, TakeNext;
    TakeKeeps(c, s);
    TakeBlank(c, s);
    NotSpoofed(c, s);
  }

  lemma {:induction false} BlankThenRecv(c: Codec, s: Sys, script: seq<Event>, acts: seq<Action>)
    requires NewlineAt(s.eng.buf) < |s.eng.buf| && Blank(CutLine(s.eng).0) && s.phase.Waiting?
    requires Agrees(c, Taken(s), script, acts)
    ensures Agrees(c, s, script, [Take] + acts)
  {
    hide Exec, NewlineAt, Blank, TakeStep;
    TakeBlank(c, s);
    ExecCons(c, s, Take, acts);
  }

  lemma {:induction false} PrintThenRecv(c: Codec, s: Sys, text: string, moves: seq<Move>, acts: seq<Action>)
    requires moves != [] && moves[0] == Prints(text) && NoNewline(text)
    requires Agrees(c, PrintStep(s, text), EventsOf(moves[1..]), acts)
    ensures Agrees(c, s, EventsOf(moves), [Action.Print(text)] + acts)
  {
    hide RecvSpec, Exec, NoNewline;
    assert EventsOf(moves) == EventsOf(moves[1..]);
    ExecCons(c, s, Action.Print(text), acts);
  }

  lemma {:induction false} ChunkThenRecv(c: Codec, s: Sys, data: string, moves: seq<Move>, acts: seq<Action>)
    requires moves != [] && moves[0] == Waits(Chunk(data)) && s.phase.Waiting? && data <= s.up
    requires NewlineAt(s.eng.buf) == |s.eng.buf|
    requires Agrees(c, DeliverStep(s, |data|), EventsOf(moves[1..]), acts)
    ensures Agrees(c, s, EventsOf(moves), [Deliver(|data|)] + acts)
  {
    hide Exec;
    assert s.up[..|data|] == data;
    EventsCons(moves);
    ExecCons(c, s, Deliver(|data|), acts);
  }

  lemma {:induction false} CollectThenRecv(c: Codec, s: Sys, h: int, moves: seq<Move>, acts: seq<Action>)
    requires moves != [] && moves[0] == Waits(Collected(h)) && Enabled(c, s, Action.Collect(h))
    requires NewlineAt(s.eng.buf) == |s.eng.buf|
    requires Agrees(c, CollectStep(s, h), EventsOf(moves[1..]), acts)
    ensures Agrees(c, s, EventsOf(moves), [Action.Collect(h)] + acts)
  {
    hide Exec;
    EventsCons(moves);
    ExecCons(c, s, Action.Collect(h), acts);
  }

  lemma {:induction false} FailureEndsRecv(c: Codec, s: Sys, moves: seq<Move>)
    requires s.phase.Waiting? && NewlineAt(s.eng.buf) == |s.eng.buf|
    requires moves == [] || (moves[0].Waits? && !moves[0].event.Chunk? && !moves[0].event.Collected?)
    ensures Agrees(c, s, EventsOf(moves), RecvActions(c, s.eng, moves))
  {
    hide Exec;
    ExecOne(c, s, if moves != [] && moves[0].event.TransportError? then ReceiveFails else Expire);
    if moves != [] {
      EventsCons(moves);
    }
  }

  lemma {:induction false} EventsCons(moves: seq<Move>)
    requires moves != [] && moves[0].Waits?
    ensures EventsOf(moves) != [] && EventsOf(moves)[0] == moves[0].event
      && EventsOf(moves)[1..] == EventsOf(moves[1..])
  {
  }

  lemma {:induction false} ExecOne(c: Codec, s: Sys, a: Action)
    requires Enabled(c, s, a)
    ensures Exec(c, s, [a]) == Some(Apply(c, s, a))
  {
    hide Enabled, Apply;
    assert [a][1..] == [];
    assert Exec(c, Apply(c, s, a), []) == Some(Apply(c, s, a));
  }

  lemma {:induction false} ExecCons(c: Codec, s: Sys, a: Action, acts: seq<Action>)
    requires Enabled(c, s, a)
    ensures Exec(c, s, [a] + acts) == Exec(c, Apply(c, s, a), acts)
  {
    hide Enabled, Apply;
    assert ([a] + acts)[1..] == acts;
  }

  lemma {:induction false} ServeFrame(c: Codec, s: Sys, effect: Effect)
    requires s.down != []
    ensures var s' := ServeStep(c, s, effect);
      && s'.eng == s.eng && s'.phase == s.phase && s'.read == s.read && s'.returned == s.returned && s'.sent == s.sent
      && s.replies <= s'.replies && s'.spoofed == s.spoofed
  {
    hide ServeSpec;
  }

  lemma {:induction false} TakeEndsRecv(c: Codec, s: Sys, script: seq<Event>)
    requires Lawful(c) && Inv(c, s) && s.phase.Waiting? && NewlineAt(s.eng.buf) < |s.eng.buf|
    requires !Blank(CutLine(s.eng).0)
    ensures Agrees(c, s, script, [Take])
  {
    hide Inv, TakeStep, TakeNext, CutLine, BytesOk, RecvSpec, Exec, Lawful, Says, Blank;
    TakeKeeps(c, s);
    ExecOne(c, s, Take);
    TakeReturns(c, s);
    RecvTakes(c, s, script);
  }

  lemma {:induction false} RecvTakes(c: Codec, s: Sys, script: seq<Event>)
    requires Lawful(c) && Inv(c, s) && NewlineAt(s.eng.buf) < |s.eng.buf| && s.read < |s.replies|
    requires !Blank(CutLine(s.eng).0)
    ensures var said := Says(c, s.replies[s.read]);
      RecvSpec(c, s.eng, script)
      == Received(CutLine(s.eng).1, if said.Some? then Ok(said.value) else Err(BadLine))
  {
    hide IdsOk, AnswersOk, TableOk, UseOk, HealthyOk, PlacesOk, PlacesOf, ProxiedOk, HeldOk, BytesOk, NoNewline,
      Blank, NewlineAt;
    TakeBytes(c, s.eng, s.up, s.consumed, s.received, s.replies, s.read);
    if s.replies[s.read].Told? { assert LineFor(c, s.replies[s.read].reply); }
  }
}
