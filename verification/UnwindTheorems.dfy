/** What teardown keeps, whatever fails and however blocks are nested. */
module UnwindTheorems {
  import opened Common
  import opened Unwind

  // ---- what every run keeps ------------------------------------------------------------------

  /** The exceptions raised by the calls of a trace, in order. */
  function Raised(t: seq<Event>): seq<nat> {
    if t == [] then [] else Raised(t[..|t| - 1]) + if t[|t| - 1].exc.Some? then [t[|t| - 1].exc.value] else []
  }

  /** Those raised by teardown calls while e was on its way. */
  function During(t: seq<Event>, e: nat): seq<nat> {
    if t == [] then []
    else
      var last := t[|t| - 1];
      During(t[..|t| - 1], e) + if last.exc.Some? && last.during == Some(e) then [last.exc.value] else []
  }

  /** Every exception, on its way or caught, carries just what teardowns raised while it was on its way. */
  ghost predicate Attached(s: State) {
    forall e: nat :: Errs(s, e) == During(s.trace, e)
  }

  /** The state speaks of exceptions that exist. */
  ghost predicate Fresh(s: State) {
    && (forall e <- s.errs :: e < s.excs)
    && (forall i :: 0 <= i < |s.trace| ==> (s.trace[i].exc.Some? ==> s.trace[i].exc.value < s.excs)
                                           && (s.trace[i].during.Some? ==> s.trace[i].during.value < s.excs))
  }

  ghost predicate Sane(s: State) { Fresh(s) && Attached(s) }

  /** s' continues s: calls are appended, exceptions and blocks numbered on. */
  ghost predicate Continues(s: State, s': State) {
    s.trace <= s'.trace && s.excs <= s'.excs && s.frames <= s'.frames
  }

  lemma {:induction false} DuringSnoc(t: seq<Event>, ev: Event, e: nat)
    ensures During(t + [ev], e) == During(t, e) + if ev.exc.Some? && ev.during == Some(e) then [ev.exc.value] else []
  {
    assert (t + [ev])[..|t|] == t;
  }

  lemma {:induction false} NotDuring(t: seq<Event>, e: nat)
    requires forall i :: 0 <= i < |t| ==> t[i].during != Some(e)
    ensures During(t, e) == []
  {
    if t != [] { NotDuring(t[..|t| - 1], e); }
  }

  lemma {:induction false} ActContinues(o: Oracle, s: State, call: Call, during: Outcome)
    requires Fresh(s) && (during.Some? ==> during.value < s.excs)
    ensures var (s', e) := Act(o, s, call, during);
      && Continues(s, s') && Fresh(s') && s'.errs == s.errs && s'.frames == s.frames
      && s'.trace == s.trace + [Event(call, e, during)] && (e.Some? ==> e == Some(s.excs) && s'.excs == s.excs + 1)
  {
  }

  /** A call outside of a teardown attaches nothing. */
  lemma {:induction false} DoIsSane(o: Oracle, s: State, call: Call)
    requires Sane(s)
    ensures Sane(Do(o, s, call).0)
  {
    hide During, Act;
    ActContinues(o, s, call, None);
    var (s', x) := Do(o, s, call);
    forall e: nat
      ensures Errs(s', e) == During(s'.trace, e)
    {
      DuringSnoc(s.trace, Event(call, x, None), e);
      assert During(s.trace, e) + [] == During(s.trace, e);
    }
  }

  lemma {:induction false} RunAllContinues(o: Oracle, s: State, actions: seq<Call>, primary: Outcome)
    requires Fresh(s) && (primary.Some? ==> primary.value < s.excs)
    ensures var (s', failures) := RunAll(o, s, actions, primary);
      && Continues(s, s') && Fresh(s') && s'.errs == s.errs && s'.frames == s.frames
      && |s'.trace| == |s.trace| + |actions| && (forall f <- failures :: s.excs <= f < s'.excs)
    ensures forall i :: 0 <= i < |actions| ==> RunAll(o, s, actions, primary).0.trace[|s.trace| + i].call == actions[i]
    decreases |actions|
  {
    hide Act, Fresh;
    if actions != [] {
      ActContinues(o, s, actions[0], primary);
      var (s1, e) := Act(o, s, actions[0], primary);
      var next := if primary.Some? then primary else e;
      RunAllContinues(o, s1, actions[1..], next);
      CallsFirst(s, s1, RunAll(o, s1, actions[1..], next).0, actions);
    }
  }

  lemma {:induction false} CallsFirst(s: State, m: State, s': State, actions: seq<Call>)
    requires actions != [] && Continues(m, s') && |s'.trace| == |m.trace| + |actions| - 1
    requires |m.trace| == |s.trace| + 1 && s.trace <= m.trace && m.trace[|s.trace|].call == actions[0]
    requires forall i :: 0 <= i < |actions[1..]| ==> s'.trace[|m.trace| + i].call == actions[1..][i]
    ensures forall i :: 0 <= i < |actions| ==> s'.trace[|s.trace| + i].call == actions[i]
  {
    forall i | 0 <= i < |actions|
      ensures s'.trace[|s.trace| + i].call == actions[i]
    {
      if i == 0 {
        assert s'.trace[|s.trace|] == m.trace[|s.trace|];
      } else {
        assert s'.trace[|m.trace| + (i - 1)].call == actions[1..][i - 1];
      }
    }
  }

  /** What a teardown raises, and while which exception: the primary one, or else the first that it raised itself. */
  function Gained(failures: seq<nat>, primary: Outcome, e: nat): seq<nat> {
    if primary == Some(e) then failures
    else if primary.None? && failures != [] && failures[0] == e then failures[1..]
    else []
  }

  lemma {:induction false} RunAllDuring(o: Oracle, s: State, actions: seq<Call>, primary: Outcome, e: nat)
    requires Fresh(s) && (primary.Some? ==> primary.value < s.excs)
    ensures var (s', failures) := RunAll(o, s, actions, primary);
      During(s'.trace, e) == During(s.trace, e) + Gained(failures, primary, e)
    decreases |actions|
  {
    hide Act, Fresh, During, Gained;
    var before := During(s.trace, e);
    if actions == [] {
      assert Gained([], primary, e) == [] && before + [] == before by { NothingGained(primary, e); }
    } else {
      ActContinues(o, s, actions[0], primary);
      var (s1, x) := Act(o, s, actions[0], primary);
      var next := if primary.Some? then primary else x;
      RunAllDuring(o, s1, actions[1..], next, e);
      DuringSnoc(s.trace, Event(actions[0], x, primary), e);
      GainedMore(before, RunAll(o, s1, actions[1..], next).1, primary, x, e);
    }
  }

  lemma {:induction false} NothingGained(primary: Outcome, e: nat)
    ensures Gained([], primary, e) == []
  {
  }

  lemma {:induction false} GainedMore(before: seq<nat>, rest: seq<nat>, primary: Outcome, x: Outcome, e: nat)
    ensures var first := if x.Some? then [x.value] else [];
      before + (if x.Some? && primary == Some(e) then [x.value] else [])
        + Gained(rest, if primary.Some? then primary else x, e)
      == before + Gained(first + rest, primary, e)
  {
    var first := if x.Some? then [x.value] else [];
    assert x.Some? ==> (first + rest)[1..] == rest && (first + rest)[0] == x.value;
    assert x.None? ==> first + rest == rest;
    if primary == Some(e) {
      assert before + first + rest == before + (first + rest);
    } else {
      assert forall more: seq<nat> :: before + [] + more == before + more;
    }
  }

  // ---- the escaping exception and what is attached to it ---------------------------------------

  /** e was raised by a call since s. */
  ghost predicate Since(s: State, s': State, e: nat) {
    exists i :: |s.trace| <= i < |s'.trace| && s'.trace[i].exc == Some(e)
  }

  /** The outcome of a step: it continues s, keeps what exceptions carry, and lets only new exceptions escape. */
  ghost predicate Good(s: State, r: (State, Outcome)) {
    Continues(s, r.0) && Sane(r.0) && (r.1.Some? ==> Since(s, r.0, r.1.value) && r.1.value < r.0.excs)
  }

  lemma {:induction false} GoodThen(s: State, m: State, r: (State, Outcome))
    requires Continues(s, m) && Good(m, r)
    ensures Good(s, r)
  {
    hide Sane;
  }

  /** An exception stays one that was raised, whatever runs after it. */
  lemma {:induction false} SinceStays(s: State, m: State, s': State, e: nat)
    requires Since(s, m, e) && Continues(m, s')
    ensures Since(s, s', e)
  {
    var i :| |s.trace| <= i < |m.trace| && m.trace[i].exc == Some(e);
    assert s'.trace[i] == m.trace[i];
  }

  /** A finally clause: the exception on its way stays the same; without one the first failure takes its place. What
      failed is attached to the one that escapes, in order. */
  lemma {:induction false} FinallyIsGood(o: Oracle, s: State, m: State, out: Outcome, actions: seq<Call>)
    requires Good(s, (m, out))
    ensures Good(s, Finally(o, m, out, actions))
    ensures out.Some? ==> Finally(o, m, out, actions).1 == out
    ensures |Finally(o, m, out, actions).0.trace| == |m.trace| + |actions|
    ensures forall i :: 0 <= i < |actions| ==> Finally(o, m, out, actions).0.trace[|m.trace| + i].call == actions[i]
  {
    hide RunAll, During, Fresh, Attached;
    RunAllContinues(o, m, actions, out);
    var (ran, failures) := RunAll(o, m, actions, out);
    var (s', e) := Finally(o, m, out, actions);
    FinallyAttaches(o, m, out, actions);
    AttachIsFresh(ran, s', out, failures);
    if out.Some? {
      SinceStays(s, m, s', out.value);
    } else if failures != [] {
      FirstIsRaised(o, m, actions);
    }
  }

  /** Exactly what the teardown raised is attached, to the exception on its way. */
  lemma {:induction false} FinallyAttaches(o: Oracle, m: State, out: Outcome, actions: seq<Call>)
    requires Sane(m) && (out.Some? ==> out.value < m.excs)
    ensures Attached(Finally(o, m, out, actions).0)
  {
    hide RunAll, During, Fresh;
    RunAllContinues(o, m, actions, out);
    var failures := RunAll(o, m, actions, out).1;
    var s' := Finally(o, m, out, actions).0;
    forall x: nat
      ensures Errs(s', x) == During(s'.trace, x)
    {
      RunAllDuring(o, m, actions, out, x);
      assert Errs(m, x) + [] == Errs(m, x);
      assert failures != [] && |failures| == 1 ==> failures[1..] == [];
    }
  }

  lemma {:induction false} AttachIsFresh(ran: State, s': State, out: Outcome, failures: seq<nat>)
    requires Fresh(ran) && (forall f <- failures :: f < ran.excs) && (out.Some? ==> out.value < ran.excs)
    requires s' == ran || (failures != [] && s' == Attach(ran, if out.Some? then out.value else failures[0],
                                                          if out.Some? then failures else failures[1..]))
    ensures Fresh(s')
  {
    if failures != [] { assert failures[0] in failures; }
  }

  lemma {:induction false} FirstIsRaised(o: Oracle, s: State, actions: seq<Call>)
    requires Fresh(s) && RunAll(o, s, actions, None).1 != []
    ensures Since(s, RunAll(o, s, actions, None).0, RunAll(o, s, actions, None).1[0])
    decreases |actions|
  {
    hide Act, Fresh;
    ActContinues(o, s, actions[0], None);
    var (s1, x) := Act(o, s, actions[0], None);
    RunAllContinues(o, s1, actions[1..], x);
    if x.Some? {
      assert s1.trace[|s.trace|].exc == x;
      SinceStays(s, s1, RunAll(o, s1, actions[1..], x).0, x.value);
    } else {
      FirstIsRaised(o, s1, actions[1..]);
    }
  }

  lemma {:induction false} ReadAllIsGood(o: Oracle, s: State, oids: seq<string>)
    requires Sane(s)
    ensures Good(s, ReadAll(o, s, oids))
    decreases |oids|
  {
    hide Sane, Do;
    if oids != [] {
      DoIsGood(o, s, Get(oids[0]));
      var (s', e) := Do(o, s, Get(oids[0]));
      if e.None? {
        ReadAllIsGood(o, s', oids[1..]);
        GoodThen(s, s', ReadAll(o, s', oids[1..]));
      }
    }
  }

  lemma {:induction false} GrabIsGood(o: Oracle, s: State, f: nat, oid: string, target: string)
    requires Sane(s)
    ensures Good(s, Grab(o, s, f, oid, target))
  {
    hide Sane, Do;
    DoIsGood(o, s, Put(GrabAdd(f), oid, target));
    var (s', e) := Do(o, s, Put(GrabAdd(f), oid, target));
    DoIsGood(o, s', Put(GrabSet(f), oid, target));
    GoodThen(s, s', Do(o, s', Put(GrabSet(f), oid, target)));
  }

  lemma {:induction false} NewFrameContinues(s: State)
    requires Sane(s)
    ensures Continues(s, NewFrame(s)) && Sane(NewFrame(s))
  {
    hide During;
    assert forall e: nat :: Errs(NewFrame(s), e) == Errs(s, e);
  }

  /** For every body, however its blocks are nested, exceptions are handled and calls fail: the exception that escapes
      was raised by some call, and every exception there ever was carries in its cleanup_errors exactly what teardown
      calls raised while it was on its way, in order. */
  lemma {:induction false} EscapingExceptionCarriesAll(o: Oracle, s: State, p: Prog)
    requires Sane(s)
    ensures Good(s, Run(o, s, p))
    decreases p, 0
  {
    hide Since, Continues, Sane, Finally, Do, Grab, ReadAll;
    match p
    case Skip => NothingIsGood(s);
    case Write(oid, value) => DoIsGood(o, s, Put(ByBody, oid, value));
    case Fail => DoIsGood(o, s, Throw);
    case Then(first, second) =>
      EscapingExceptionCarriesAll(o, s, first);
      var s1 := Run(o, s, first).0;
      EscapingExceptionCarriesAll(o, s1, second);
      GoodThen(s, s1, Run(o, s1, second));
    case Catch(body) =>
      EscapingExceptionCarriesAll(o, s, body);
    case Rethrow(body, handler) =>
      EscapingExceptionCarriesAll(o, s, body);
      var (s1, out) := Run(o, s, body);
      EscapingExceptionCarriesAll(o, s1, handler);
      var (s2, e) := Run(o, s1, handler);
      GoodThen(s, s1, (s2, e));
      if out.Some? { AgainIsGood(s, s1, s2, out.value); }
    case Backup(body) =>
      OpenedIsGood(o, s, Create(s.frames), body, [Restore(s.frames), Release(s.frames)]);
    case Transaction(body) =>
      OpenedIsGood(o, s, Create(s.frames), body, [Restore(s.frames), Release(s.frames)]);
      OpenedIsGood(o, s, Create(s.frames), body, [Release(s.frames)]);
    case Borrow(name, owner, borrower, subpath, body) =>
      var f := s.frames;
      NewFrameContinues(s);
      var call := Put(LetGo(f), RsrcOid(owner, name), "");
      DoIsGood(o, NewFrame(s), call);
      GoodThen(s, NewFrame(s), Do(o, NewFrame(s), call));
      var s1 := Do(o, NewFrame(s), call).0;
      BorrowedIsGood(o, s1, f, name, borrower, subpath, body);
      var (s2, out) := Borrowed(o, s1, f, name, borrower, subpath, body);
      GoodThen(s, s1, (s2, out));
      FinallyIsGood(o, s, s2, out, [Put(Reclaim(f), RsrcOid(owner, name), TargetOid(owner, subpath))]);
    case Saved(oids, body) =>
      NewFrameContinues(s);
      ReadAllIsGood(o, NewFrame(s), oids);
      GoodThen(s, NewFrame(s), ReadAll(o, NewFrame(s), oids));
      var s1 := ReadAll(o, NewFrame(s), oids).0;
      EscapingExceptionCarriesAll(o, s1, body);
      var (s2, out) := Run(o, s1, body);
      GoodThen(s, s1, (s2, out));
      FinallyIsGood(o, s, s2, out, PutBacks(s.frames, s.cfg, Firsts(oids)));
  }

  /** An exception raised again is the one it was. */
  lemma {:induction false} AgainIsGood(s: State, m: State, s': State, e: nat)
    requires Good(s, (m, Some(e))) && Continues(m, s') && Sane(s')
    ensures Good(s, (s', Some(e)))
  {
    hide Sane;
    SinceStays(s, m, s', e);
  }

  lemma {:induction false} OpenedIsGood(o: Oracle, s: State, call: Call, body: Prog, actions: seq<Call>)
    requires Sane(s)
    ensures var (s1, e) := Do(o, NewFrame(s), call);
      Good(s, (s1, e)) && Good(s, Finally(o, Run(o, s1, body).0, Run(o, s1, body).1, actions))
    decreases body, 1
  {
    hide Since, Continues, Sane, Finally, Do, Run;
    NewFrameContinues(s);
    DoIsGood(o, NewFrame(s), call);
    GoodThen(s, NewFrame(s), Do(o, NewFrame(s), call));
    var s1 := Do(o, NewFrame(s), call).0;
    EscapingExceptionCarriesAll(o, s1, body);
    GoodThen(s, s1, Run(o, s1, body));
    FinallyIsGood(o, s, Run(o, s1, body).0, Run(o, s1, body).1, actions);
  }

  lemma {:induction false} BorrowedIsGood(o: Oracle, s: State, f: nat, name: string, borrower: string,
                                          subpath: string, body: Prog)
    requires Sane(s)
    ensures Good(s, Borrowed(o, s, f, name, borrower, subpath, body))
    decreases body, 1
  {
    hide Since, Continues, Sane, Finally, Grab, Run;
    var oid, target := RsrcOid(borrower, name), TargetOid(borrower, subpath);
    GrabIsGood(o, s, f, oid, target);
    var s2 := Grab(o, s, f, oid, target).0;
    EscapingExceptionCarriesAll(o, s2, body);
    var (s3, out) := Run(o, s2, body);
    GoodThen(s, s2, (s3, out));
    FinallyIsGood(o, s, s3, out, [Put(GiveBack(f), oid, "")]);
  }

  lemma {:induction false} NothingIsGood(s: State)
    requires Sane(s)
    ensures Good(s, (s, None))
  {
    hide Sane;
  }

  lemma {:induction false} DoIsGood(o: Oracle, s: State, call: Call)
    requires Sane(s)
    ensures Good(s, Do(o, s, call))
  {
    hide Attached, Act;
    ActContinues(o, s, call, None);
    DoIsSane(o, s, call);
    var (s', e) := Do(o, s, call);
    assert s'.trace[|s.trace|].exc == e;
  }

  // ---- bodies that do not raise again ----------------------------------------------------------

  /** No handler raises the exception it caught again. */
  predicate NoRethrow(p: Prog) {
    match p
    case Then(first, second) => NoRethrow(first) && NoRethrow(second)
    case Catch(body) => NoRethrow(body)
    case Rethrow(_, _) => false
    case Backup(body) => NoRethrow(body)
    case Transaction(body) => NoRethrow(body)
    case Borrow(_, _, _, _, body) => NoRethrow(body)
    case Saved(_, body) => NoRethrow(body)
    case _ => true
  }

  ghost predicate AloneSince(s: State, s': State, e: nat, i: int) {
    && |s.trace| <= i < |s'.trace| && s'.trace[i].exc == Some(e)
    && (forall j :: 0 <= j <= i ==> s'.trace[j].during != Some(e))
    && (forall j :: i < j < |s'.trace| && s'.trace[j].exc.Some? ==> s'.trace[j].during == Some(e))
  }

  /** Whatever was raised after e was raised by teardowns, while e was on its way. */
  ghost predicate Alone(s: State, s': State, e: nat) {
    exists i :: AloneSince(s, s', e, i)
  }

  ghost predicate Lonely(s: State, r: (State, Outcome)) {
    Continues(s, r.0) && Fresh(r.0) && (r.1.Some? ==> r.1.value < r.0.excs && Alone(s, r.0, r.1.value))
  }

  lemma {:induction false} LonelyThen(s: State, m: State, r: (State, Outcome))
    requires Continues(s, m) && Lonely(m, r)
    ensures Lonely(s, r)
  {
    hide Fresh;
    if r.1.Some? {
      var i :| AloneSince(m, r.0, r.1.value, i);
      assert AloneSince(s, r.0, r.1.value, i);
    }
  }

  lemma {:induction false} DoIsLonely(o: Oracle, s: State, call: Call)
    requires Fresh(s)
    ensures Lonely(s, Do(o, s, call))
  {
    ActContinues(o, s, call, None);
    var (s', e) := Do(o, s, call);
    if e.Some? {
      assert AloneSince(s, s', e.value, |s.trace|);
    }
  }

  /** The teardown of an exception raises while that one is on its way. */
  lemma {:induction false} RunAllIsDuring(o: Oracle, s: State, actions: seq<Call>, e: nat)
    requires Fresh(s) && e < s.excs
    ensures var s' := RunAll(o, s, actions, Some(e)).0;
      s.trace <= s'.trace && forall j :: |s.trace| <= j < |s'.trace| ==> s'.trace[j].during == Some(e)
    decreases |actions|
  {
    hide Act, Fresh;
    if actions != [] {
      ActContinues(o, s, actions[0], Some(e));
      var s1 := Act(o, s, actions[0], Some(e)).0;
      RunAllIsDuring(o, s1, actions[1..], e);
      var s' := RunAll(o, s1, actions[1..], Some(e)).0;
      assert s'.trace[|s.trace|] == s1.trace[|s.trace|];
    }
  }

  /** A teardown without an exception: from its first failure on it tears down for that one. */
  lemma {:induction false} FirstIsAlone(o: Oracle, s: State, actions: seq<Call>)
    requires Fresh(s) && RunAll(o, s, actions, None).1 != []
    ensures Alone(s, RunAll(o, s, actions, None).0, RunAll(o, s, actions, None).1[0])
    decreases |actions|
  {
    hide Act;
    ActContinues(o, s, actions[0], None);
    var (s1, x) := Act(o, s, actions[0], None);
    RunAllContinues(o, s1, actions[1..], x);
    var s' := RunAll(o, s1, actions[1..], x).0;
    if x.Some? {
      RunAllIsDuring(o, s1, actions[1..], x.value);
      forall j | 0 <= j <= |s.trace|
        ensures s'.trace[j].during != x
      {
        assert s'.trace[j] == s1.trace[j];
      }
      assert s'.trace[|s.trace|] == s1.trace[|s.trace|];
      assert AloneSince(s, s', x.value, |s.trace|);
    } else {
      FirstIsAlone(o, s1, actions[1..]);
      var e := RunAll(o, s1, actions[1..], None).1[0];
      var i :| AloneSince(s1, s', e, i);
      assert AloneSince(s, s', e, i);
    }
  }

  lemma {:induction false} FinallyIsLonely(o: Oracle, s: State, m: State, out: Outcome, actions: seq<Call>)
    requires Lonely(s, (m, out))
    ensures Lonely(s, Finally(o, m, out, actions))
  {
    hide RunAll, Fresh;
    RunAllContinues(o, m, actions, out);
    var (ran, failures) := RunAll(o, m, actions, out);
    var (s', e) := Finally(o, m, out, actions);
    AttachIsFresh(ran, s', out, failures);
    if out.Some? {
      RunAllIsDuring(o, m, actions, out.value);
      var i :| AloneSince(s, m, out.value, i);
      assert forall j :: 0 <= j < |m.trace| ==> s'.trace[j] == m.trace[j];
      assert AloneSince(s, s', out.value, i);
    } else if failures != [] {
      FirstIsAlone(o, m, actions);
      assert failures[0] in failures;
      var i :| AloneSince(m, ran, failures[0], i);
      assert AloneSince(s, s', failures[0], i);
    }
  }

  lemma {:induction false} ReadAllIsLonely(o: Oracle, s: State, oids: seq<string>)
    requires Fresh(s)
    ensures Lonely(s, ReadAll(o, s, oids))
    decreases |oids|
  {
    hide Fresh, Do, Alone;
    if oids != [] {
      DoIsLonely(o, s, Get(oids[0]));
      var (s', e) := Do(o, s, Get(oids[0]));
      if e.None? {
        ReadAllIsLonely(o, s', oids[1..]);
        LonelyThen(s, s', ReadAll(o, s', oids[1..]));
      }
    }
  }

  lemma {:induction false} EscapesAlone(o: Oracle, s: State, p: Prog)
    requires Fresh(s) && NoRethrow(p)
    ensures Lonely(s, Run(o, s, p))
    decreases p, 0
  {
    hide Alone, Fresh, Finally, Do, Grab, ReadAll;
    var s0, f := NewFrame(s), s.frames;
    assert Fresh(s0) by { FreshFrame(s); }
    match p
    case Skip =>
    case Write(oid, value) => DoIsLonely(o, s, Put(ByBody, oid, value));
    case Fail => DoIsLonely(o, s, Throw);
    case Then(first, second) =>
      EscapesAlone(o, s, first);
      var s1 := Run(o, s, first).0;
      EscapesAlone(o, s1, second);
      LonelyThen(s, s1, Run(o, s1, second));
    case Catch(body) => EscapesAlone(o, s, body);
    case Backup(body) => OpenedIsLonely(o, s, body, [Restore(f), Release(f)]);
    case Transaction(body) =>
      OpenedIsLonely(o, s, body, [Restore(f), Release(f)]);
      OpenedIsLonely(o, s, body, [Release(f)]);
    case Borrow(name, owner, borrower, subpath, body) =>
      var call := Put(LetGo(f), RsrcOid(owner, name), "");
      DoIsLonely(o, s0, call);
      LonelyThen(s, s0, Do(o, s0, call));
      var s1 := Do(o, s0, call).0;
      BorrowedIsLonely(o, s1, f, name, borrower, subpath, body);
      var (s2, out) := Borrowed(o, s1, f, name, borrower, subpath, body);
      LonelyThen(s, s1, (s2, out));
      FinallyIsLonely(o, s, s2, out, [Put(Reclaim(f), RsrcOid(owner, name), TargetOid(owner, subpath))]);
    case Saved(oids, body) =>
      ReadAllIsLonely(o, s0, oids);
      LonelyThen(s, s0, ReadAll(o, s0, oids));
      var s1 := ReadAll(o, s0, oids).0;
      EscapesAlone(o, s1, body);
      var (s2, out) := Run(o, s1, body);
      LonelyThen(s, s1, (s2, out));
      FinallyIsLonely(o, s, s2, out, PutBacks(f, s.cfg, Firsts(oids)));
  }

  lemma {:induction false} FreshFrame(s: State)
    requires Fresh(s)
    ensures Fresh(NewFrame(s))
  {
  }

  lemma {:induction false} OpenedIsLonely(o: Oracle, s: State, body: Prog, actions: seq<Call>)
    requires Fresh(s) && NoRethrow(body)
    ensures var (s1, e) := Do(o, NewFrame(s), Create(s.frames));
      Lonely(s, (s1, e)) && Lonely(s, Finally(o, Run(o, s1, body).0, Run(o, s1, body).1, actions))
    decreases body, 1
  {
    hide Alone, Fresh, Finally, Do, Run;
    assert Fresh(NewFrame(s)) by { FreshFrame(s); }
    DoIsLonely(o, NewFrame(s), Create(s.frames));
    var (s1, e) := Do(o, NewFrame(s), Create(s.frames));
    LonelyThen(s, NewFrame(s), (s1, e));
    EscapesAlone(o, s1, body);
    LonelyThen(s, s1, Run(o, s1, body));
    FinallyIsLonely(o, s, Run(o, s1, body).0, Run(o, s1, body).1, actions);
  }

  lemma {:induction false} BorrowedIsLonely(o: Oracle, s: State, f: nat, name: string, borrower: string,
                                            subpath: string, body: Prog)
    requires Fresh(s) && NoRethrow(body)
    ensures Lonely(s, Borrowed(o, s, f, name, borrower, subpath, body))
    decreases body, 1
  {
    hide Alone, Fresh, Finally, Do, Run;
    var oid, target := RsrcOid(borrower, name), TargetOid(borrower, subpath);
    DoIsLonely(o, s, Put(GrabAdd(f), oid, target));
    var (s1, e) := Do(o, s, Put(GrabAdd(f), oid, target));
    DoIsLonely(o, s1, Put(GrabSet(f), oid, target));
    LonelyThen(s, s1, Do(o, s1, Put(GrabSet(f), oid, target)));
    var s2 := Grab(o, s, f, oid, target).0;
    EscapesAlone(o, s2, body);
    var (s3, out) := Run(o, s2, body);
    LonelyThen(s, s2, (s3, out));
    FinallyIsLonely(o, s, s3, out, [Put(GiveBack(f), oid, "")]);
  }

  /** What was raised since e, when all of it was raised during e, is what was raised during e. */
  lemma {:induction false} DuringIsRaised(t: seq<Event>, e: nat, i: nat)
    requires i < |t| && (forall j :: 0 <= j <= i ==> t[j].during != Some(e))
    requires forall j :: i < j < |t| && t[j].exc.Some? ==> t[j].during == Some(e)
    ensures During(t, e) == Raised(t[i + 1..])
    decreases |t|
  {
    if i == |t| - 1 {
      NotDuring(t, e);
    } else {
      var n := |t| - 1;
      DuringIsRaised(t[..n], e, i);
      assert t[i + 1..][..n - i - 1] == t[..n][i + 1..];
    }
  }

  /** For every body without handlers that raise again: cleanup_errors of the escaping exception are all exceptions
      raised after it, in order. */
  lemma {:induction false} NothingElseIsRaised(o: Oracle, s: State, p: Prog)
    requires Sane(s) && NoRethrow(p)
    ensures var (s', e) := Run(o, s, p);
      e.Some? ==> exists i :: |s.trace| <= i < |s'.trace| && s'.trace[i].exc == e
                              && Errs(s', e.value) == Raised(s'.trace[i + 1..])
  {
    hide Run, During, Raised;
    EscapingExceptionCarriesAll(o, s, p);
    EscapesAlone(o, s, p);
    var (s', e) := Run(o, s, p);
    if e.Some? {
      var i :| AloneSince(s, s', e.value, i);
      DuringIsRaised(s'.trace, e.value, i);
    }
  }

  // ---- blocks: the original exception, what is attempted on the way out, the configuration -------

  /** The state and outcome in which the body of a block ends, if the block was entered at all. */
  function BodyEnd(o: Oracle, s: State, p: Prog): Option<(State, Outcome)> {
    var f := s.frames;
    match p
    case Backup(body) => var (s1, e) := Do(o, NewFrame(s), Create(f)); if e.Some? then None else Some(Run(o, s1, body))
    case Transaction(body) => var (s1, e) := Do(o, NewFrame(s), Create(f));
      if e.Some? then None else Some(Run(o, s1, body))
    case Borrow(name, owner, borrower, subpath, body) =>
      var (s1, e) := Do(o, NewFrame(s), Put(LetGo(f), RsrcOid(owner, name), ""));
      if e.Some? then None else
      var (s2, g) := Grab(o, s1, f, RsrcOid(borrower, name), TargetOid(borrower, subpath));
      if g.Some? then None else Some(Run(o, s2, body))
    case Saved(oids, body) => var (s1, e) := ReadAll(o, NewFrame(s), oids);
      if e.Some? then None else Some(Run(o, s1, body))
    case _ => None
  }

  /** The calls a block owes once its body has ended, in the order they must be attempted. */
  function Owed(s: State, p: Prog, out: Outcome): seq<Call> {
    var f := s.frames;
    match p
    case Backup(_) => [Restore(f), Release(f)]
    case Transaction(_) => if out.Some? then [Restore(f), Release(f)] else [Release(f)]
    case Borrow(name, owner, borrower, subpath, _) =>
      [Put(GiveBack(f), RsrcOid(borrower, name), ""), Put(Reclaim(f), RsrcOid(owner, name), TargetOid(owner, subpath))]
    case Saved(oids, _) => PutBacks(f, s.cfg, Firsts(oids))
    case _ => []
  }

  function CallsOf(t: seq<Event>): seq<Call> {
    if t == [] then [] else [t[0].call] + CallsOf(t[1..])
  }

  lemma {:induction false} CallsAt(t: seq<Event>, calls: seq<Call>)
    requires |t| == |calls| && forall i :: 0 <= i < |t| ==> t[i].call == calls[i]
    ensures CallsOf(t) == calls
  {
    if t != [] {
      CallsAt(t[1..], calls[1..]);
    }
  }

  lemma {:induction false} FinallyCalls(o: Oracle, m: State, out: Outcome, actions: seq<Call>)
    requires Fresh(m) && (out.Some? ==> out.value < m.excs)
    ensures var s' := Finally(o, m, out, actions).0; m.trace <= s'.trace && CallsOf(s'.trace[|m.trace|..]) == actions
    ensures out.Some? ==> Finally(o, m, out, actions).1 == out
  {
    RunAllContinues(o, m, actions, out);
    var t := RunAll(o, m, actions, out).0.trace[|m.trace|..];
    CallsAt(t, actions);
  }

  lemma {:induction false} BodyEndIsGood(o: Oracle, s: State, p: Prog)
    requires Sane(s) && BodyEnd(o, s, p).Some?
    ensures Good(s, BodyEnd(o, s, p).value)
  {
    hide Since, Continues, Sane, Do, Grab, ReadAll, Run;
    NewFrameContinues(s);
    var s0, f := NewFrame(s), s.frames;
    match p
    case Backup(body) =>
      DoIsGood(o, s0, Create(f));
      EnteredIsGood(o, s, s0, Do(o, s0, Create(f)), body);
    case Transaction(body) =>
      DoIsGood(o, s0, Create(f));
      EnteredIsGood(o, s, s0, Do(o, s0, Create(f)), body);
    case Borrow(name, owner, borrower, subpath, body) =>
      var call := Put(LetGo(f), RsrcOid(owner, name), "");
      DoIsGood(o, s0, call);
      var s1 := Do(o, s0, call).0;
      GoodThen(s, s0, (s1, None));
      GrabIsGood(o, s1, f, RsrcOid(borrower, name), TargetOid(borrower, subpath));
      EnteredIsGood(o, s, s1, Grab(o, s1, f, RsrcOid(borrower, name), TargetOid(borrower, subpath)), body);
    case Saved(oids, body) =>
      ReadAllIsGood(o, s0, oids);
      EnteredIsGood(o, s, s0, ReadAll(o, s0, oids), body);
    case _ =>
  }

  lemma {:induction false} EnteredIsGood(o: Oracle, s: State, m: State, r: (State, Outcome), body: Prog)
    requires Continues(s, m) && Good(m, r)
    ensures Good(s, Run(o, r.0, body))
  {
    hide Since, Continues, Sane, Run;
    EscapingExceptionCarriesAll(o, r.0, body);
    GoodThen(m, r.0, Run(o, r.0, body));
    GoodThen(s, m, Run(o, r.0, body));
  }

  /** Once a block was entered, however its body ends: everything it owes is attempted, once, in order, whatever fails;
      and an exception of the body escapes as itself. */
  lemma {:induction false} BlockSettles(o: Oracle, s: State, p: Prog)
    requires Sane(s) && BodyEnd(o, s, p).Some?
    ensures var ((m, out), (s', e)) := (BodyEnd(o, s, p).value, Run(o, s, p));
      && m.trace <= s'.trace
      && CallsOf(s'.trace[|m.trace|..]) == Owed(s, p, out)
      && (out.Some? ==> e == out)
  {
    hide Since, Continues, Do, Grab, ReadAll, Attached, Fresh, CleanupAll, Finally, CallsOf;
    BodyEndIsGood(o, s, p);
    var (m, out) := BodyEnd(o, s, p).value;
    var f := s.frames;
    match p
    case Borrow(name, owner, borrower, subpath, body) =>
      BothSettle(o, s, m, out, Put(GiveBack(f), RsrcOid(borrower, name), ""),
                 Put(Reclaim(f), RsrcOid(owner, name), TargetOid(owner, subpath)));
    case _ => FinallyCalls(o, m, out, Owed(s, p, out));
  }

  /** Two nested finally clauses. */
  lemma {:induction false} BothSettle(o: Oracle, s: State, m: State, out: Outcome, call1: Call, call2: Call)
    requires Good(s, (m, out))
    ensures var (m1, out1) := Finally(o, m, out, [call1]);
      var (s', e) := Finally(o, m1, out1, [call2]);
      m.trace <= s'.trace && CallsOf(s'.trace[|m.trace|..]) == [call1, call2] && (out.Some? ==> e == out)
  {
    hide Since, Continues, Attached, Fresh, CleanupAll, Finally, CallsOf;
    var (m1, out1) := Finally(o, m, out, [call1]);
    var s' := Finally(o, m1, out1, [call2]).0;
    FinallyCalls(o, m, out, [call1]);
    FinallyIsGood(o, s, m, out, [call1]);
    FinallyCalls(o, m1, out1, [call2]);
    assert s'.trace[|m.trace|..] == m1.trace[|m.trace|..] + s'.trace[|m1.trace|..];
    CallsConcat(m1.trace[|m.trace|..], s'.trace[|m1.trace|..]);
    assert [call1] + [call2] == [call1, call2];
  }

  lemma {:induction false} CallsConcat(a: seq<Event>, b: seq<Event>)
    ensures CallsOf(a + b) == CallsOf(a) + CallsOf(b)
  {
    if a == [] {
      assert a + b == b;
    } else {
      assert (a + b)[0] == a[0] && (a + b)[1..] == a[1..] + b;
      CallsConcat(a[1..], b);
      assert CallsOf(a + b) == [a[0].call] + (CallsOf(a[1..]) + CallsOf(b));
      assert CallsOf(a) == [a[0].call] + CallsOf(a[1..]);
    }
  }

  // ---- over a whole run: last in, first out, each debt settled once -----------------------------

  datatype Debt = OweBackup(name: nat, restored: bool) | OweReclaim(frame: nat) | OweGiveBack(frame: nat)

  /** What one call does to the stack of debts; None is a settlement of something not owed next. */
  function Settle(stack: seq<Debt>, ev: Event): Option<seq<Debt>> {
    var owes := |stack| > 0;
    var top, rest := if owes then stack[|stack| - 1] else OweReclaim(0), if owes then stack[..|stack| - 1] else [];
    match ev.call
    case Create(n) => Some(if ev.exc.None? then stack + [OweBackup(n, false)] else stack)
    case Restore(n) => if owes && top == OweBackup(n, false) then Some(rest + [OweBackup(n, true)]) else None
    case Release(n) => if owes && top.OweBackup? && top.name == n then Some(rest) else None
    case Put(LetGo(f), _, _) => Some(if ev.exc.None? then stack + [OweReclaim(f)] else stack)
    case Put(GrabAdd(f), _, _) => Some(if ev.exc.None? then stack + [OweGiveBack(f)] else stack)
    case Put(GrabSet(f), _, _) => Some(if ev.exc.None? then stack + [OweGiveBack(f)] else stack)
    case Put(GiveBack(f), _, _) => if owes && top == OweGiveBack(f) then Some(rest) else None
    case Put(Reclaim(f), _, _) => if owes && top == OweReclaim(f) then Some(rest) else None
    case _ => Some(stack)
  }

  function SettleAll(stack: seq<Debt>, t: seq<Event>): Option<seq<Debt>>
    decreases |t|
  {
    if t == [] then Some(stack)
    else match Settle(stack, t[0])
      case None => None
      case Some(stack') => SettleAll(stack', t[1..])
  }

  lemma {:induction false} SettleConcat(stack: seq<Debt>, a: seq<Event>, b: seq<Event>)
    requires SettleAll(stack, a).Some?
    ensures SettleAll(stack, a + b) == SettleAll(SettleAll(stack, a).value, b)
    decreases |a|
  {
    hide Settle;
    if a == [] {
      assert a + b == b;
    } else {
      assert (a + b)[1..] == a[1..] + b;
      SettleConcat(Settle(stack, a[0]).value, a[1..], b);
    }
  }

  /** From a to b the calls turn one stack of debts into another. */
  ghost predicate Turns(a: State, b: State, s1: seq<Debt>, s2: seq<Debt>) {
    a.trace <= b.trace && SettleAll(s1, b.trace[|a.trace|..]) == Some(s2)
  }

  lemma {:induction false} TurnsThen(a: State, b: State, c: State, s1: seq<Debt>, s2: seq<Debt>, s3: seq<Debt>)
    requires Turns(a, b, s1, s2) && Turns(b, c, s2, s3)
    ensures Turns(a, c, s1, s3)
  {
    assert c.trace[|a.trace|..] == b.trace[|a.trace|..] + c.trace[|b.trace|..];
    SettleConcat(s1, b.trace[|a.trace|..], c.trace[|b.trace|..]);
  }

  lemma {:induction false} TurnsAct(o: Oracle, s: State, call: Call, during: Outcome, stack: seq<Debt>)
    requires Settle(stack, Event(call, Act(o, s, call, during).1, during)).Some?
    ensures Turns(s, Act(o, s, call, during).0, stack,
                  Settle(stack, Event(call, Act(o, s, call, during).1, during)).value)
  {
    hide Settle;
    var s', ev := Act(o, s, call, during).0, Event(call, Act(o, s, call, during).1, during);
    assert s'.trace == s.trace + [ev];
    assert s'.trace[|s.trace|..] == [ev] && [ev][1..] == [];
    assert SettleAll(Settle(stack, ev).value, []) == Settle(stack, ev);
  }

  lemma {:induction false} TurnsOne(o: Oracle, s: State, call: Call, stack: seq<Debt>)
    requires Settle(stack, Event(call, Do(o, s, call).1, None)).Some?
    ensures Turns(s, Do(o, s, call).0, stack, Settle(stack, Event(call, Do(o, s, call).1, None)).value)
  {
    TurnsAct(o, s, call, None, stack);
  }

  lemma {:induction false} TurnsTrace(a: State, b: State, a': State, b': State, s1: seq<Debt>, s2: seq<Debt>)
    requires Turns(a, b, s1, s2) && a'.trace == a.trace && b'.trace == b.trace
    ensures Turns(a', b', s1, s2)
  {
  }

  /** Settling the one debt on top of the stack, or a backup's two. */
  lemma {:induction false} FinallyTurns(o: Oracle, m: State, out: Outcome, actions: seq<Call>, stack: seq<Debt>,
                                        debt: Debt)
    requires debt.OweBackup? ==>
      !debt.restored && (actions == [Release(debt.name)] || actions == [Restore(debt.name), Release(debt.name)])
    requires debt.OweGiveBack? ==> |actions| == 1 && actions[0].Put? && actions[0].why == GiveBack(debt.frame)
    requires debt.OweReclaim? ==> |actions| == 1 && actions[0].Put? && actions[0].why == Reclaim(debt.frame)
    ensures Turns(m, Finally(o, m, out, actions).0, stack + [debt], stack)
  {
    hide Act, SettleAll, Turns, RunAll;
    var top := stack + [debt];
    assert top[|top| - 1] == debt && top[..|top| - 1] == stack;
    var (m1, x) := Act(o, m, actions[0], out);
    var ran := RunAll(o, m, actions, out).0;
    TurnsAct(o, m, actions[0], out, top);
    if |actions| == 2 {
      var mid, next := stack + [OweBackup(debt.name, true)], if out.Some? then out else x;
      assert mid[|mid| - 1] == OweBackup(debt.name, true) && mid[..|mid| - 1] == stack;
      TurnsAct(o, m1, actions[1], next, mid);
      TurnsThen(m, m1, Act(o, m1, actions[1], next).0, top, mid, stack);
      TwoActions(o, m, actions[0], actions[1], out);
      assert actions == [actions[0], actions[1]];
    } else {
      OneAction(o, m, actions[0], out);
      assert actions == [actions[0]];
    }
    TurnsTrace(m, ran, m, Finally(o, m, out, actions).0, top, stack);
  }

  lemma {:induction false} NeutralRun(o: Oracle, s: State, actions: seq<Call>, primary: Outcome, stack: seq<Debt>)
    requires forall c <- actions :: c.Put? && c.why.PutBack?
    ensures Turns(s, RunAll(o, s, actions, primary).0, stack, stack)
    decreases |actions|
  {
    hide Act, Turns, SettleAll;
    if actions == [] {
      NoTurn(s, stack);
    } else {
      TurnsAct(o, s, actions[0], primary, stack);
      var (s1, x) := Act(o, s, actions[0], primary);
      var next := if primary.Some? then primary else x;
      NeutralRun(o, s1, actions[1..], next, stack);
      TurnsThen(s, s1, RunAll(o, s1, actions[1..], next).0, stack, stack, stack);
    }
  }

  lemma {:induction false} NoTurn(s: State, stack: seq<Debt>)
    ensures Turns(s, s, stack, stack)
  {
    assert s.trace[|s.trace|..] == [];
  }

  lemma {:induction false} NeutralReads(o: Oracle, s: State, oids: seq<string>, stack: seq<Debt>)
    ensures Turns(s, ReadAll(o, s, oids).0, stack, stack)
    decreases |oids|
  {
    hide Do, Turns, SettleAll;
    if oids == [] {
      NoTurn(s, stack);
    } else {
      TurnsOne(o, s, Get(oids[0]), stack);
      var (s1, e) := Do(o, s, Get(oids[0]));
      if e.None? {
        NeutralReads(o, s1, oids[1..], stack);
        TurnsThen(s, s1, ReadAll(o, s1, oids[1..]).0, stack, stack, stack);
      }
    }
  }

  lemma {:induction false} PutBacksArePutBacks(f: nat, c: Config, oids: seq<string>)
    ensures forall x <- PutBacks(f, c, oids) :: x.Put? && x.why.PutBack?
  {
    if oids != [] {
      PutBacksArePutBacks(f, c, oids[1..]);
    }
  }

  lemma {:induction false} GrabTurns(o: Oracle, s: State, f: nat, oid: string, target: string, stack: seq<Debt>)
    ensures var (s', e) := Grab(o, s, f, oid, target);
      Turns(s, s', stack, if e.None? then stack + [OweGiveBack(f)] else stack)
  {
    hide Do, Turns, SettleAll;
    TurnsOne(o, s, Put(GrabAdd(f), oid, target), stack);
    var (s1, e) := Do(o, s, Put(GrabAdd(f), oid, target));
    if e.Some? {
      TurnsOne(o, s1, Put(GrabSet(f), oid, target), stack);
      var (s2, e2) := Do(o, s1, Put(GrabSet(f), oid, target));
      TurnsThen(s, s1, s2, stack, stack, if e2.None? then stack + [OweGiveBack(f)] else stack);
    }
  }

  /** Whatever fails and however blocks are nested: over a whole run every backup that was taken is released exactly
      once and restored at most once, every resource that was let go is reclaimed exactly once and every one grabbed
      is given back exactly once, always the most recent debt first. */
  lemma {:induction false} DebtsAreSettled(o: Oracle, s: State, p: Prog, stack: seq<Debt>)
    ensures Turns(s, Run(o, s, p).0, stack, stack)
    decreases p, 0
  {
    hide Do, Turns, SettleAll, Finally, Grab, ReadAll;
    var s0, f := NewFrame(s), s.frames;
    match p
    case Skip => NoTurn(s, stack);
    case Write(oid, value) => TurnsOne(o, s, Put(ByBody, oid, value), stack);
    case Fail => TurnsOne(o, s, Throw, stack);
    case Then(first, second) =>
      DebtsAreSettled(o, s, first, stack);
      var s1 := Run(o, s, first).0;
      DebtsAreSettled(o, s1, second, stack);
      TurnsThen(s, s1, Run(o, s1, second).0, stack, stack, stack);
    case Catch(body) => DebtsAreSettled(o, s, body, stack);
    case Rethrow(body, handler) =>
      DebtsAreSettled(o, s, body, stack);
      var s1 := Run(o, s, body).0;
      DebtsAreSettled(o, s1, handler, stack);
      TurnsThen(s, s1, Run(o, s1, handler).0, stack, stack, stack);
    case Backup(body) => BackupTurns(o, s, body, stack, [Restore(f), Release(f)]);
    case Transaction(body) =>
      BackupTurns(o, s, body, stack, [Restore(f), Release(f)]);
      BackupTurns(o, s, body, stack, [Release(f)]);
    case Borrow(name, owner, borrower, subpath, body) =>
      BorrowTurns(o, s, name, owner, borrower, subpath, body, stack);
    case Saved(oids, body) =>
      NeutralReads(o, s0, oids, stack);
      var (s1, e) := ReadAll(o, s0, oids);
      TurnsTrace(s0, s1, s, s1, stack, stack);
      if e.None? {
        DebtsAreSettled(o, s1, body, stack);
        var (s2, out) := Run(o, s1, body);
        TurnsThen(s, s1, s2, stack, stack, stack);
        PutBacksArePutBacks(f, s.cfg, Firsts(oids));
        NeutralFinally(o, s2, out, PutBacks(f, s.cfg, Firsts(oids)), stack);
        TurnsThen(s, s2, Finally(o, s2, out, PutBacks(f, s.cfg, Firsts(oids))).0, stack, stack, stack);
      }
  }

  lemma {:induction false} NeutralFinally(o: Oracle, m: State, out: Outcome, actions: seq<Call>, stack: seq<Debt>)
    requires forall c <- actions :: c.Put? && c.why.PutBack?
    ensures Turns(m, Finally(o, m, out, actions).0, stack, stack)
  {
    hide RunAll, Turns;
    NeutralRun(o, m, actions, out, stack);
    TurnsTrace(m, RunAll(o, m, actions, out).0, m, Finally(o, m, out, actions).0, stack, stack);
  }

  lemma {:induction false} BackupTurns(o: Oracle, s: State, body: Prog, stack: seq<Debt>, actions: seq<Call>)
    requires actions == [Release(s.frames)] || actions == [Restore(s.frames), Release(s.frames)]
    ensures var (s1, e) := Do(o, NewFrame(s), Create(s.frames));
      if e.Some? then Turns(s, s1, stack, stack)
      else Turns(s, Finally(o, Run(o, s1, body).0, Run(o, s1, body).1, actions).0, stack, stack)
    decreases body, 1
  {
    hide Do, Turns, SettleAll, Finally, Run;
    var s0, debt := NewFrame(s), OweBackup(s.frames, false);
    TurnsOne(o, s0, Create(s.frames), stack);
    var (s1, e) := Do(o, s0, Create(s.frames));
    TurnsTrace(s0, s1, s, s1, stack, if e.None? then stack + [debt] else stack);
    if e.None? {
      DebtsAreSettled(o, s1, body, stack + [debt]);
      var (s2, out) := Run(o, s1, body);
      FinallyTurns(o, s2, out, actions, stack, debt);
      TurnsThen(s, s1, s2, stack, stack + [debt], stack + [debt]);
      TurnsThen(s, s2, Finally(o, s2, out, actions).0, stack, stack + [debt], stack);
    }
  }

  lemma {:induction false} BorrowTurns(o: Oracle, s: State, name: string, owner: string, borrower: string,
                                       subpath: string,
                                       body: Prog, stack: seq<Debt>)
    ensures Turns(s, Run(o, s, Borrow(name, owner, borrower, subpath, body)).0, stack, stack)
    decreases body, 2
  {
    hide Do, Turns, SettleAll, Finally, Borrowed;
    var s0, f, debt := NewFrame(s), s.frames, OweReclaim(s.frames);
    var call, back := Put(LetGo(f), RsrcOid(owner, name), ""),
      Put(Reclaim(f), RsrcOid(owner, name), TargetOid(owner, subpath));
    TurnsOne(o, s0, call, stack);
    var (s1, e) := Do(o, s0, call);
    TurnsTrace(s0, s1, s, s1, stack, if e.None? then stack + [debt] else stack);
    if e.None? {
      BorrowedTurns(o, s1, f, name, borrower, subpath, body, stack + [debt]);
      var (s2, out) := Borrowed(o, s1, f, name, borrower, subpath, body);
      FinallyTurns(o, s2, out, [back], stack, debt);
      TurnsThen(s, s1, s2, stack, stack + [debt], stack + [debt]);
      TurnsThen(s, s2, Finally(o, s2, out, [back]).0, stack, stack + [debt], stack);
    }
  }

  lemma {:induction false} BorrowedTurns(o: Oracle, s: State, f: nat, name: string, borrower: string, subpath: string,
                                         body: Prog, stack: seq<Debt>)
    ensures Turns(s, Borrowed(o, s, f, name, borrower, subpath, body).0, stack, stack)
    decreases body, 1
  {
    hide Do, Turns, SettleAll, Finally, Grab, Run;
    var oid, target, debt := RsrcOid(borrower, name), TargetOid(borrower, subpath), OweGiveBack(f);
    GrabTurns(o, s, f, oid, target, stack);
    var (s1, e) := Grab(o, s, f, oid, target);
    if e.None? {
      DebtsAreSettled(o, s1, body, stack + [debt]);
      var (s2, out) := Run(o, s1, body);
      var back := Put(GiveBack(f), oid, "");
      FinallyTurns(o, s2, out, [back], stack, debt);
      TurnsThen(s, s1, s2, stack, stack + [debt], stack + [debt]);
      TurnsThen(s, s2, Finally(o, s2, out, [back]).0, stack, stack + [debt], stack);
    }
  }

  // ---- the configuration -------------------------------------------------------------------------

  /** Backups taken before are kept: a body only releases what it took itself. */
  ghost predicate Keeps(s: State, s': State) {
    s.frames <= s'.frames && forall n <- s.backups :: n < s.frames ==> n in s'.backups && s'.backups[n] == s.backups[n]
  }

  lemma {:induction false} RunAllKeeps(o: Oracle, s: State, actions: seq<Call>, primary: Outcome, n: nat)
    requires forall c <- actions :: c != Release(n) && !c.Create?
    ensures var s' := RunAll(o, s, actions, primary).0;
      s'.frames == s.frames && (n in s'.backups <==> n in s.backups)
        && (n in s.backups ==> s'.backups[n] == s.backups[n])
    decreases |actions|
  {
    if actions != [] {
      assert actions[0] in actions && forall c <- actions[1..] :: c in actions;
      var (s1, x) := Act(o, s, actions[0], primary);
      RunAllKeeps(o, s1, actions[1..], if primary.Some? then primary else x, n);
    }
  }

  lemma {:induction false} FinallyKeeps(o: Oracle, m: State, out: Outcome, actions: seq<Call>, frames: nat)
    requires frames <= m.frames && forall c <- actions :: !c.Create? && (c.Release? ==> c.name >= frames)
    ensures var s' := Finally(o, m, out, actions).0;
      m.frames == s'.frames && forall n <- m.backups :: n < frames ==> n in s'.backups && s'.backups[n] == m.backups[n]
  {
    hide RunAll;
    forall n | n in m.backups && n < frames
      ensures var s' := RunAll(o, m, actions, out).0; n in s'.backups && s'.backups[n] == m.backups[n]
    {
      RunAllKeeps(o, m, actions, out, n);
    }
    RunAllFrames(o, m, actions, out);
  }

  lemma {:induction false} RunAllFrames(o: Oracle, s: State, actions: seq<Call>, primary: Outcome)
    ensures RunAll(o, s, actions, primary).0.frames == s.frames
    decreases |actions|
  {
    if actions != [] {
      var (s1, x) := Act(o, s, actions[0], primary);
      RunAllFrames(o, s1, actions[1..], if primary.Some? then primary else x);
    }
  }

  lemma {:induction false} ReadAllKeeps(o: Oracle, s: State, oids: seq<string>)
    ensures ReadAll(o, s, oids).0.frames == s.frames && ReadAll(o, s, oids).0.backups == s.backups
    decreases |oids|
  {
    if oids != [] {
      ReadAllKeeps(o, Do(o, s, Get(oids[0])).0, oids[1..]);
    }
  }

  lemma {:induction false} BodyKeepsBackups(o: Oracle, s: State, p: Prog)
    ensures Keeps(s, Run(o, s, p).0)
    decreases p, 0
  {
    hide Finally, ReadAll, Borrowed;
    var s0, f := NewFrame(s), s.frames;
    match p
    case Then(first, second) =>
      BodyKeepsBackups(o, s, first);
      BodyKeepsBackups(o, Run(o, s, first).0, second);
    case Catch(body) => BodyKeepsBackups(o, s, body);
    case Rethrow(body, handler) =>
      BodyKeepsBackups(o, s, body);
      BodyKeepsBackups(o, Run(o, s, body).0, handler);
    case Backup(body) => OpenedKeeps(o, s, body, [Restore(f), Release(f)]);
    case Transaction(body) =>
      OpenedKeeps(o, s, body, [Restore(f), Release(f)]);
      OpenedKeeps(o, s, body, [Release(f)]);
    case Borrow(name, owner, borrower, subpath, body) =>
      var s1 := Do(o, s0, Put(LetGo(f), RsrcOid(owner, name), "")).0;
      BorrowedKeeps(o, s1, f, name, borrower, subpath, body);
      var (s2, out) := Borrowed(o, s1, f, name, borrower, subpath, body);
      FinallyKeeps(o, s2, out, [Put(Reclaim(f), RsrcOid(owner, name), TargetOid(owner, subpath))], f);
    case Saved(oids, body) =>
      ReadAllKeeps(o, s0, oids);
      var s1 := ReadAll(o, s0, oids).0;
      BodyKeepsBackups(o, s1, body);
      PutBacksArePutBacks(f, s.cfg, Firsts(oids));
      FinallyKeeps(o, Run(o, s1, body).0, Run(o, s1, body).1, PutBacks(f, s.cfg, Firsts(oids)), f);
    case _ =>
  }

  lemma {:induction false} OpenedKeeps(o: Oracle, s: State, body: Prog, actions: seq<Call>)
    requires forall c <- actions :: !c.Create? && (c.Release? ==> c.name >= s.frames)
    ensures var (s1, e) := Do(o, NewFrame(s), Create(s.frames));
      Keeps(s, s1) && Keeps(s, Finally(o, Run(o, s1, body).0, Run(o, s1, body).1, actions).0)
    decreases body, 1
  {
    hide Finally, Run;
    var s1 := Do(o, NewFrame(s), Create(s.frames)).0;
    BodyKeepsBackups(o, s1, body);
    FinallyKeeps(o, Run(o, s1, body).0, Run(o, s1, body).1, actions, s.frames);
  }

  lemma {:induction false} BorrowedKeeps(o: Oracle, s: State, f: nat, name: string, borrower: string, subpath: string,
                                         body: Prog)
    ensures Keeps(s, Borrowed(o, s, f, name, borrower, subpath, body).0)
    decreases body, 1
  {
    hide Finally, Run;
    var s1 := Grab(o, s, f, RsrcOid(borrower, name), TargetOid(borrower, subpath)).0;
    BodyKeepsBackups(o, s1, body);
    FinallyKeeps(o, Run(o, s1, body).0, Run(o, s1, body).1, [Put(GiveBack(f), RsrcOid(borrower, name), "")], s1.frames);
  }

  /** What a teardown leaves in the configuration, when none of its calls fails. */
  ghost predicate AllDone(m: State, s': State) {
    forall i :: |m.trace| <= i < |s'.trace| ==> s'.trace[i].exc.None?
  }

  /** A block that was entered ends with the configuration it was entered with, if it is a backup or a transaction
      whose body raised and its restore succeeds; a transaction that ends well keeps its body's configuration. */
  lemma {:induction false} ConfigurationAfter(o: Oracle, s: State, p: Prog)
    requires (p.Backup? || p.Transaction?) && BodyEnd(o, s, p).Some?
    ensures var ((m, out), s') := (BodyEnd(o, s, p).value, Run(o, s, p).0);
      && (p.Transaction? && out.None? ==> s'.cfg == m.cfg)
      && (p.Backup? || out.Some? ==> (Do(o, m, Restore(s.frames)).1.None? ==> s'.cfg == s.cfg))
  {
    hide Run;
    var f := s.frames;
    var s1 := Do(o, NewFrame(s), Create(f)).0;
    var (m, out) := BodyEnd(o, s, p).value;
    BodyKeepsBackups(o, s1, p.body);
    assert f in m.backups && m.backups[f] == s.cfg;
    TwoActions(o, m, Restore(f), Release(f), out);
    OneAction(o, m, Release(f), out);
    assert Run(o, s, p) == Finally(o, m, out, Owed(s, p, out)) by { RunUnfolds(o, s, p); }
  }

  lemma {:induction false} RunUnfolds(o: Oracle, s: State, p: Prog)
    requires (p.Backup? || p.Transaction? || p.Saved?) && BodyEnd(o, s, p).Some?
    ensures var (m, out) := BodyEnd(o, s, p).value; Run(o, s, p) == Finally(o, m, out, Owed(s, p, out))
  {
  }

  lemma {:induction false} TwoActions(o: Oracle, s: State, a: Call, b: Call, primary: Outcome)
    ensures var (s1, x) := Act(o, s, a, primary);
      RunAll(o, s, [a, b], primary).0 == Act(o, s1, b, if primary.Some? then primary else x).0
  {
    hide Act;
    var (s1, x) := Act(o, s, a, primary);
    OneAction(o, s1, b, if primary.Some? then primary else x);
    assert [a, b][1..] == [b];
  }

  lemma {:induction false} OneAction(o: Oracle, s: State, a: Call, primary: Outcome)
    ensures RunAll(o, s, [a], primary).0 == Act(o, s, a, primary).0
  {
    hide Act;
    assert [a][1..] == [];
    var (s1, x) := Act(o, s, a, primary);
    assert RunAll(o, s1, [], if primary.Some? then primary else x).0 == s1;
  }

  // ---- saved and borrowed instances ----------------------------------------------------------

  lemma {:induction false} FirstsAre(oids: seq<string>)
    ensures forall x :: x in Firsts(oids) <==> x in oids
    ensures forall i, j :: 0 <= i < j < |Firsts(oids)| ==> Firsts(oids)[i] != Firsts(oids)[j]
  {
    if oids != [] {
      var rest, last := oids[..|oids| - 1], oids[|oids| - 1];
      FirstsAre(rest);
      assert forall x :: x in oids <==> x in rest || x == last;
    }
  }

  /** Put-backs that all succeed set each instance to its value, and nothing else. */
  lemma {:induction false} PutBacksPutBack(o: Oracle, m: State, f: nat, c: Config, oids: seq<string>, primary: Outcome)
    requires forall i, j :: 0 <= i < j < |oids| ==> oids[i] != oids[j]
    requires AllDone(m, RunAll(o, m, PutBacks(f, c, oids), primary).0)
    ensures var cfg := RunAll(o, m, PutBacks(f, c, oids), primary).0.cfg;
      && (forall x <- oids :: x in cfg && cfg[x] == Value(c, x))
      && (forall x :: x !in oids ==> (x in cfg <==> x in m.cfg) && (x in cfg ==> cfg[x] == m.cfg[x]))
    decreases |oids|
  {
    if oids != [] {
      var actions := PutBacks(f, c, oids);
      assert actions[0] == Put(PutBack(f), oids[0], Value(c, oids[0])) && actions[1..] == PutBacks(f, c, oids[1..]);
      var (m1, x) := Act(o, m, actions[0], primary);
      var next := if primary.Some? then primary else x;
      var s' := RunAll(o, m1, actions[1..], next).0;
      RunAllAppends(o, m1, actions[1..], next);
      assert s'.trace[|m.trace|] == m1.trace[|m.trace|] && x.None?;
      PutBacksPutBack(o, m1, f, c, oids[1..], next);
      forall y | y in oids
        ensures y == oids[0] || y in oids[1..]
      {
      }
      assert oids[0] !in oids[1..];
    }
  }

  lemma {:induction false} RunAllAppends(o: Oracle, s: State, actions: seq<Call>, primary: Outcome)
    ensures s.trace <= RunAll(o, s, actions, primary).0.trace
    decreases |actions|
  {
    if actions != [] {
      var (s1, x) := Act(o, s, actions[0], primary);
      RunAllAppends(o, s1, actions[1..], if primary.Some? then primary else x);
    }
  }

  /** A saved block whose put-backs all succeed leaves every named instance at the value it had on entry. */
  lemma {:induction false} SavedAfter(o: Oracle, s: State, p: Prog)
    requires p.Saved? && BodyEnd(o, s, p).Some? && AllDone(BodyEnd(o, s, p).value.0, Run(o, s, p).0)
    ensures var cfg := Run(o, s, p).0.cfg; forall x <- p.oids :: x in cfg && cfg[x] == Value(s.cfg, x)
  {
    hide Run, RunAll, Firsts, PutBacks;
    var (m, out) := BodyEnd(o, s, p).value;
    RunUnfolds(o, s, p);
    FirstsAre(p.oids);
    var actions := PutBacks(s.frames, s.cfg, Firsts(p.oids));
    assert Run(o, s, p).0.trace == RunAll(o, m, actions, out).0.trace;
    PutBacksPutBack(o, m, s.frames, s.cfg, Firsts(p.oids), out);
  }

  /** A borrowed block whose two releases succeed leaves the owner holding the target, and the borrower's instance
      empty unless it is the owner's. */
  lemma {:induction false} BorrowedAfter(o: Oracle, s: State, p: Prog)
    requires p.Borrow? && BodyEnd(o, s, p).Some? && AllDone(BodyEnd(o, s, p).value.0, Run(o, s, p).0)
    ensures var (cfg, mine, theirs) := (Run(o, s, p).0.cfg, RsrcOid(p.owner, p.name), RsrcOid(p.borrower, p.name));
      && mine in cfg && cfg[mine] == TargetOid(p.owner, p.subpath)
      && (mine != theirs ==> theirs in cfg && cfg[theirs] == "")
  {
    hide RsrcOid, TargetOid, BodyEnd, Finally, Run;
    var f := s.frames;
    var (m, out) := BodyEnd(o, s, p).value;
    var give := Put(GiveBack(f), RsrcOid(p.borrower, p.name), "");
    var claim := Put(Reclaim(f), RsrcOid(p.owner, p.name), TargetOid(p.owner, p.subpath));
    BorrowUnfolds(o, s, p);
    var (m1, out1) := Finally(o, m, out, [give]);
    PutAlone(o, m, give, out);
    PutAlone(o, m1, claim, out1);
    var s' := Run(o, s, p).0;
    assert s'.trace[|m.trace|] == m1.trace[|m.trace|] && s'.trace[|m1.trace|].exc.None?;
  }

  lemma {:induction false} BorrowUnfolds(o: Oracle, s: State, p: Prog)
    requires p.Borrow? && BodyEnd(o, s, p).Some?
    ensures var (f, (m, out)) := (s.frames, BodyEnd(o, s, p).value);
      var give := Put(GiveBack(f), RsrcOid(p.borrower, p.name), "");
      var claim := Put(Reclaim(f), RsrcOid(p.owner, p.name), TargetOid(p.owner, p.subpath));
      var (m1, out1) := Finally(o, m, out, [give]);
      Run(o, s, p) == Finally(o, m1, out1, [claim])
  {
    hide Finally, Act, Grab, RsrcOid, TargetOid;
  }

  /** A cleanup of one call that sets an instance: one event, and the instance is set unless it was refused. */
  lemma {:induction false} PutAlone(o: Oracle, m: State, put: Call, out: Outcome)
    requires put.Put?
    ensures var s' := Finally(o, m, out, [put]).0;
      && |s'.trace| == |m.trace| + 1 && s'.trace[..|m.trace|] == m.trace
      && (s'.trace[|m.trace|].exc.None? ==> s'.cfg == m.cfg[put.oid := put.value])
  {
    hide RunAll;
    OneAction(o, m, put, out);
  }
}
