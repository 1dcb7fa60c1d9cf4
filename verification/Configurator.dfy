/**
 The blocks of cfg/__init__.py and the loop of _cleanup.py as they run: the Configurator's state, the exceptions and the
 record of calls are updated in place.  Every method does what Unwind specifies, so Unwind's theorems hold of it.
 */
module Configurator {
  import opened Common
  import opened Unwind

  class Facade {
    var cfg: Config
    var backups: map<nat, Config>
    var frames: nat
    var excs: nat
    var errs: map<nat, seq<nat>>
    var trace: seq<Event>

    ghost function Now(): State reads this { State(cfg, backups, frames, excs, errs, trace) }

    constructor (start: Config)
      ensures Now() == State(start, map[], 0, 0, map[], [])
    {
      cfg, backups, frames, excs, errs, trace := start, map[], 0, 0, map[], [];
    }

    /** One call into the Configurator; a refusal raises a new exception. */
    method Act(o: Oracle, call: Call, during: Outcome) returns (raised: Outcome)
      modifies this
      ensures (Now(), raised) == Unwind.Act(o, old(Now()), call, during)
    {
      var reply := if call.Throw? then Refused(false, cfg) else o(|trace|);
      raised := None;
      match reply {
        case Refused(_, after) =>
          if call.Restore? { cfg := after; }
          raised := Some(excs);
          excs := excs + 1;
        case Done =>
          match call {
            case Create(n) => backups := backups[n := cfg];
            case Restore(n) => if n in backups { cfg := backups[n]; }
            case Release(n) => backups := backups - {n};
            case Put(_, oid, value) => cfg := cfg[oid := value];
            case _ =>
          }
      }
      trace := trace + [Event(call, raised, during)];
    }

    method Do(o: Oracle, call: Call) returns (raised: Outcome)
      modifies this
      ensures (Now(), raised) == Unwind.Do(o, old(Now()), call)
    {
      hide Unwind.Act;
      raised := Act(o, call, None);
    }

    method Attach(e: nat, failures: seq<nat>)
      modifies this
      ensures Now() == Unwind.Attach(old(Now()), e, failures)
    {
      var existing := if e in errs then errs[e] else [];
      errs := errs[e := existing + failures];
    }

    /** cleanup_all: no failing action stops the ones after it. */
    method CleanupAll(o: Oracle, actions: seq<Call>, primary: Outcome) returns (raised: Outcome)
      modifies this
      ensures (Now(), raised) == Unwind.CleanupAll(o, old(Now()), actions, primary)
    {
      hide Unwind.Act, Unwind.RunAll;
      var failures: seq<nat>, i, during := [], 0, primary;
      ghost var all := RunAll(o, Now(), actions, primary);
      assert actions[i..] == actions && failures + all.1 == all.1;
      while i < |actions|
        invariant 0 <= i <= |actions|
        invariant during == if primary.None? && failures != [] then Some(failures[0]) else primary
        invariant var (end, rest) := RunAll(o, Now(), actions[i..], during); (end, failures + rest) == all
      {
        RunAllStep(o, Now(), actions, i, during, failures);
        var e := Act(o, actions[i], during);
        failures := failures + if e.Some? then [e.value] else [];
        during := if during.Some? then during else e;
        i := i + 1;
      }
      RunAllEnds(o, Now(), during);
      assert actions[i..] == [] && failures + [] == failures;
      if failures == [] {
        return None;
      }
      if primary.Some? {
        Attach(primary.value, failures);
        return None;
      }
      if |failures| > 1 {
        Attach(failures[0], failures[1..]);
      }
      raised := Some(failures[0]);
    }

    /** The `finally` of a block whose body ended with `primary`. */
    method Finally(o: Oracle, primary: Outcome, actions: seq<Call>) returns (raised: Outcome)
      modifies this
      ensures (Now(), raised) == Unwind.Finally(o, old(Now()), primary, actions)
    {
      raised := CleanupAll(o, actions, primary);
      if primary.Some? {
        raised := primary;
      }
    }

    method Grab(o: Oracle, f: nat, oid: string, target: string) returns (raised: Outcome)
      modifies this
      ensures (Now(), raised) == Unwind.Grab(o, old(Now()), f, oid, target)
    {
      var reply := o(|trace|);
      raised := Do(o, Put(GrabAdd(f), oid, target));
      if raised.Some? && reply.Refused? && reply.isCfgError {
        raised := Do(o, Put(GrabSet(f), oid, target));
      }
    }

    method Opened(o: Oracle, body: Prog, keeps: bool) returns (raised: Outcome)
      modifies this
      ensures (Now(), raised) == Unwind.Run(o, old(Now()), if keeps then Transaction(body) else Backup(body))
      decreases body, 1
    {
      hide Unwind.Act, Unwind.Finally;
      var name := frames;
      frames := frames + 1;
      raised := Do(o, Create(name));
      if raised.Some? {
        return;
      }
      var primary := Run(o, body);
      var actions := [Release(name)];
      if !keeps || primary.Some? {
        actions := [Restore(name)] + actions;
        assert actions == [Restore(name), Release(name)];
      }
      raised := Finally(o, primary, actions);
    }

    method Borrowed(o: Oracle, name: string, owner: string, borrower: string, subpath: string, body: Prog)
      returns (raised: Outcome)
      modifies this
      ensures (Now(), raised) == Unwind.Run(o, old(Now()), Borrow(name, owner, borrower, subpath, body))
      decreases body, 1
    {
      hide Unwind.Act, Unwind.Finally, Unwind.Grab;
      var f := frames;
      frames := frames + 1;
      raised := Do(o, Put(LetGo(f), RsrcOid(owner, name), ""));
      if raised.Some? {
        return;
      }
      var primary := Grab(o, f, RsrcOid(borrower, name), TargetOid(borrower, subpath));
      if primary.None? {
        primary := Run(o, body);
        primary := Finally(o, primary, [Put(GiveBack(f), RsrcOid(borrower, name), "")]);
      }
      raised := Finally(o, primary, [Put(Reclaim(f), RsrcOid(owner, name), TargetOid(owner, subpath))]);
    }

    method ReadAll(o: Oracle, oids: seq<string>) returns (raised: Outcome)
      modifies this
      ensures (Now(), raised) == Unwind.ReadAll(o, old(Now()), oids)
    {
      hide Unwind.Act, Unwind.Do;
      var i := 0;
      assert oids[i..] == oids;
      while i < |oids|
        invariant 0 <= i <= |oids|
        invariant Unwind.ReadAll(o, Now(), oids[i..]) == Unwind.ReadAll(o, old(Now()), oids)
      {
        assert oids[i..][0] == oids[i] && oids[i..][1..] == oids[i + 1..];
        raised := Do(o, Get(oids[i]));
        if raised.Some? {
          return;
        }
        i := i + 1;
      }
      assert oids[i..] == [];
      raised := None;
    }

    method Saved(o: Oracle, oids: seq<string>, body: Prog) returns (raised: Outcome)
      modifies this
      ensures (Now(), raised) == Unwind.Run(o, old(Now()), Unwind.Saved(oids, body))
      decreases body, 1
    {
      hide Unwind.Finally, Unwind.ReadAll, Firsts, PutBacks;
      var f, values := frames, cfg;
      frames := frames + 1;
      raised := ReadAll(o, oids);
      if raised.Some? {
        return;
      }
      var primary := Run(o, body);
      raised := Finally(o, primary, PutBacks(f, values, Firsts(oids)));
    }

    /** A whole test body. */
    method Run(o: Oracle, p: Prog) returns (raised: Outcome)
      modifies this
      ensures (Now(), raised) == Unwind.Run(o, old(Now()), p)
      decreases p, 0
    {
      hide Unwind.Act, Unwind.Finally, Unwind.Grab, Unwind.ReadAll, Firsts, PutBacks;
      match p {
        case Skip => raised := None;
        case Write(oid, value) => raised := Do(o, Put(ByBody, oid, value));
        case Fail => raised := Do(o, Throw);
        case Then(first, second) =>
          raised := Run(o, first);
          if raised.None? {
            raised := Run(o, second);
          }
        case Catch(body) =>
          raised := Run(o, body);
          raised := None;
        case Rethrow(body, handler) =>
          raised := Run(o, body);
          if raised.Some? {
            var another := Run(o, handler);
            raised := if another.Some? then another else raised;
          }
        case Backup(body) => raised := Opened(o, body, false);
        case Transaction(body) => raised := Opened(o, body, true);
        case Borrow(name, owner, borrower, subpath, body) =>
          raised := Borrowed(o, name, owner, borrower, subpath, body);
        case Saved(oids, body) => raised := this.Saved(o, oids, body);
      }
    }
  }

  /** One action more, with what failed before. */
  lemma {:induction false} RunAllStep(o: Oracle, s: State, actions: seq<Call>, i: nat, during: Outcome,
                                      failures: seq<nat>)
    requires i < |actions|
    ensures var (now, e) := Unwind.Act(o, s, actions[i], during);
      var more := if e.Some? then [e.value] else [];
      var (end, rest) := RunAll(o, now, actions[i + 1..], if during.Some? then during else e);
      && RunAll(o, s, actions[i..], during).0 == end
      && failures + RunAll(o, s, actions[i..], during).1 == failures + more + rest
  {
    hide Unwind.Act;
    assert actions[i..][0] == actions[i] && actions[i..][1..] == actions[i + 1..];
  }

  lemma {:induction false} RunAllEnds(o: Oracle, s: State, during: Outcome)
    ensures RunAll(o, s, [], during) == (s, [])
  {
  }
}
