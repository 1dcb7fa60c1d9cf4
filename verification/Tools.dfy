/**
 tools/_tool.py: ToolHandle.close, called any number of times while stopping, destroying the job and the after-close
 hook may each fail.
 */
module Tools {
  datatype Step = Stop | DestroyJob | AfterClose

  /** How a step ended; only stop tells a TeError, which close swallows, from other exceptions. */
  datatype End = Fine | TeError | Otherwise

  datatype Call = Call(step: Step, end: End)

  /** What each step would do if it were called now. */
  datatype World = World(stop: End, destroy: End, after: End) {
    function Of(s: Step): End {
      match s
      case Stop => stop
      case DestroyJob => destroy
      case AfterClose => after
    }
  }

  /** The flags of a handle, and every call it has made. */
  datatype State = State(stopped: bool, jobDestroyed: bool, afterDone: bool, closed: bool, calls: seq<Call>) {
    predicate DoneWith(s: Step) {
      match s
      case Stop => stopped
      case DestroyJob => jobDestroyed
      case AfterClose => afterDone
    }
  }

  const OPENED: State := State(false, false, false, false, [])

  /** A step is over when it ended well, and stop also when it raised a TeError. */
  predicate Completes(c: Call) {
    c.end.Fine? || (c.step.Stop? && c.end.TeError?)
  }

  /** The steps a close would still run. */
  function Pending(s: State): set<Step> {
    if s.closed then {} else set step: Step | !s.DoneWith(step)
  }

  function Part(s: State, w: World, step: Step): seq<Call> {
    if s.DoneWith(step) then [] else [Call(step, w.Of(step))]
  }

  /** The calls of one close: all that is pending, in order, unless stop itself raises something else than a TeError. */
  function Attempted(s: State, w: World): seq<Call> {
    if s.closed then []
    else if !s.stopped && w.stop.Otherwise? then [Call(Stop, w.stop)]
    else Part(s, w, Stop) + Part(s, w, DestroyJob) + Part(s, w, AfterClose)
  }

  /** What close raises: the first failed step, carrying a second. */
  function Raises(s: State, w: World): seq<Step> {
    if s.closed then []
    else if !s.stopped && w.stop.Otherwise? then [Stop]
    else
      (if s.jobDestroyed || w.destroy.Fine? then [] else [DestroyJob])
      + if s.afterDone || w.after.Fine? then [] else [AfterClose]
  }

  function Closing(s: State, w: World): State {
    if s.closed then s
    else if !s.stopped && w.stop.Otherwise? then s.(calls := s.calls + Attempted(s, w))
    else
      var destroyed, after := s.jobDestroyed || w.destroy.Fine?, s.afterDone || w.after.Fine?;
      State(true, destroyed, after, destroyed && after,
            s.calls + Part(s, w, Stop) + Part(s, w, DestroyJob) + Part(s, w, AfterClose))
  }

  class ToolHandle {
    var stopped: bool
    var jobDestroyed: bool
    var afterDone: bool
    var closed: bool
    ghost var calls: seq<Call>

    ghost function Now(): State reads this { State(stopped, jobDestroyed, afterDone, closed, calls) }

    constructor ()
      ensures Now() == OPENED
    {
      stopped, jobDestroyed, afterDone, closed, calls := false, false, false, false, [];
    }

    method DestroyJobOnce(w: World) returns (failed: seq<Step>)
      modifies this`jobDestroyed, this`calls
      ensures failed == if old(jobDestroyed) || w.destroy.Fine? then [] else [DestroyJob]
      ensures jobDestroyed == (old(jobDestroyed) || w.destroy.Fine?)
      ensures calls == if old(jobDestroyed) then old(calls) else old(calls) + [Call(DestroyJob, w.destroy)]
    {
      failed := [];
      if !jobDestroyed {
        calls := calls + [Call(DestroyJob, w.destroy)];
        if !w.destroy.Fine? {
          return [DestroyJob];
        }
        jobDestroyed := true;
      }
    }

    method AfterCloseOnce(w: World) returns (failed: seq<Step>)
      modifies this`afterDone, this`calls
      ensures failed == if old(afterDone) || w.after.Fine? then [] else [AfterClose]
      ensures afterDone == (old(afterDone) || w.after.Fine?)
      ensures calls == if old(afterDone) then old(calls) else old(calls) + [Call(AfterClose, w.after)]
    {
      failed := [];
      if !afterDone {
        calls := calls + [Call(AfterClose, w.after)];
        if !w.after.Fine? {
          return [AfterClose];
        }
        afterDone := true;
      }
    }

    method Close(w: World) returns (raised: seq<Step>)
      modifies this
      ensures Now() == Closing(old(Now()), w) && raised == Raises(old(Now()), w)
    {
      if closed {
        return [];
      }
      if !stopped {
        calls := calls + [Call(Stop, w.stop)];
        if w.stop.Otherwise? {
          return [Stop];
        }
        stopped := true;
      }
      var failed := DestroyJobOnce(w);
      var more := AfterCloseOnce(w);
      raised := failed + more;
      if raised == [] {
        closed := true;
      }
    }
  }

  // ---- any number of closes ----------------------------------------------------------------

  function Closes(s: State, ws: seq<World>): State {
    if ws == [] then s else Closing(Closes(s, ws[..|ws| - 1]), ws[|ws| - 1])
  }

  /** How often a step completed. */
  function Completions(calls: seq<Call>, s: Step): nat {
    if calls == [] then 0
    else
      Completions(calls[..|calls| - 1], s)
      + if calls[|calls| - 1].step == s && Completes(calls[|calls| - 1]) then 1 else 0
  }

  lemma {:induction false} CompletionsConcat(a: seq<Call>, b: seq<Call>, s: Step)
    ensures Completions(a + b, s) == Completions(a, s) + Completions(b, s)
  {
    if b == [] {
      assert a + b == a;
    } else {
      assert (a + b)[..|a + b| - 1] == a + b[..|b| - 1];
      CompletionsConcat(a, b[..|b| - 1], s);
    }
  }

  lemma {:induction false} AttemptedCompletions(s: State, w: World, step: Step)
    ensures Completions(Attempted(s, w), step) ==
            if s.closed || s.DoneWith(step) || (!s.stopped && w.stop.Otherwise?) then 0
            else if Completes(Call(step, w.Of(step))) then 1 else 0
  {
    hide Completions;
    if !s.closed && !(!s.stopped && w.stop.Otherwise?) {
      CompletionsConcat(Part(s, w, Stop) + Part(s, w, DestroyJob), Part(s, w, AfterClose), step);
      CompletionsConcat(Part(s, w, Stop), Part(s, w, DestroyJob), step);
    }
    CompletionsOne(Call(Stop, w.stop), step);
    CompletionsOne(Call(DestroyJob, w.destroy), step);
    CompletionsOne(Call(AfterClose, w.after), step);
  }

  lemma {:induction false} CompletionsOne(c: Call, step: Step)
    ensures Completions([], step) == 0 && Completions([c], step) == if c.step == step && Completes(c) then 1 else 0
  {
    assert [c][..0] == [];
  }

  /** Over any sequence of closes: each step has completed exactly once if its flag is set and never otherwise, and the
      handle is closed only when stop is dealt with and both others are done. */
  lemma {:induction false} EachStepCompletesOnce(ws: seq<World>)
    ensures var s := Closes(OPENED, ws);
      && (forall step: Step :: Completions(s.calls, step) == if s.DoneWith(step) then 1 else 0)
      && s.closed == (s.stopped && s.jobDestroyed && s.afterDone)
  {
    hide Completions, Closing;
    CompletionsNone();
    if ws != [] {
      EachStepCompletesOnce(ws[..|ws| - 1]);
      OneClose(Closes(OPENED, ws[..|ws| - 1]), ws[|ws| - 1]);
    }
  }

  lemma {:induction false} CompletionsNone()
    ensures forall step: Step :: Completions([], step) == 0
  {
  }

  lemma {:induction false} CallsAre(s: State, w: World)
    ensures Closing(s, w).calls == s.calls + Attempted(s, w)
  {
  }

  lemma {:induction false} OneClose(s: State, w: World)
    requires forall step: Step :: Completions(s.calls, step) == if s.DoneWith(step) then 1 else 0
    requires s.closed == (s.stopped && s.jobDestroyed && s.afterDone)
    ensures var s' := Closing(s, w);
      && (forall step: Step :: Completions(s'.calls, step) == if s'.DoneWith(step) then 1 else 0)
      && s'.closed == (s'.stopped && s'.jobDestroyed && s'.afterDone)
  {
    hide Completions, Attempted;
    CallsAre(s, w);
    forall step: Step
      ensures Completions(Closing(s, w).calls, step) == if Closing(s, w).DoneWith(step) then 1 else 0
    {
      CompletionsConcat(s.calls, Attempted(s, w), step);
      AttemptedCompletions(s, w, step);
    }
  }

  lemma {:induction false} OneMore(ws: seq<World>, w: World)
    ensures Closes(OPENED, ws + [w]) == Closing(Closes(OPENED, ws), w)
  {
    assert (ws + [w])[..|ws|] == ws;
  }

  /** After any number of closes another one attempts exactly the steps that never completed, the job's and the hook's
      independently of each other. */
  lemma {:induction false} RetryRunsTheRest(ws: seq<World>, w: World)
    ensures var s, s' := Closes(OPENED, ws), Closes(OPENED, ws + [w]);
      && s'.calls == s.calls + Attempted(s, w)
      && (forall step <- Pending(s) :: Completions(s.calls, step) == 0)
      && (forall step: Step :: Completions(s.calls, step) == 0 ==> step in Pending(s))
      && ((w.stop.Otherwise? && !s.stopped) || forall step <- Pending(s) :: Call(step, w.Of(step)) in Attempted(s, w))
  {
    hide Completions, Closes;
    EachStepCompletesOnce(ws);
    CallsAre(Closes(OPENED, ws), w);
    assert Closes(OPENED, ws + [w]) == Closing(Closes(OPENED, ws), w) by { OneMore(ws, w); }
    var s := Closes(OPENED, ws);
  }

  /** A world in which nothing fails closes the handle at once, whatever failed before. */
  lemma {:induction false} GoodCloseSuffices(ws: seq<World>, w: World)
    requires !w.stop.Otherwise? && w.destroy.Fine? && w.after.Fine?
    ensures Closes(OPENED, ws + [w]).closed && Raises(Closes(OPENED, ws), w) == []
    ensures forall v: World :: Closes(OPENED, ws + [w] + [v]).calls == Closes(OPENED, ws + [w]).calls
  {
    assert (ws + [w])[..|ws|] == ws;
    forall v: World
      ensures Closes(OPENED, ws + [w] + [v]).calls == Closes(OPENED, ws + [w]).calls
    {
      assert (ws + [w] + [v])[..|ws| + 1] == ws + [w];
    }
  }
}
