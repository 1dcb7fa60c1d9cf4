/**
 Teardown in cfg/__init__.py and cfg/_engine.py: backup, transaction, borrowed_rsrc and saved blocks, nested in any
 way, over the one cleanup policy of _cleanup.py.

 A test body is a small program; every Configurator call in it may fail as an oracle says.  Exceptions are mutable
 objects: each has an identity, and the store keeps the cleanup_errors attached to it.
 */
module Unwind {
  import opened Common

  type Config = map<string, string>

  /** What a call into the Configurator does; a refused restore may leave any configuration behind. */
  datatype Reply = Done | Refused(isCfgError: bool, after: Config)
  type Oracle = nat -> Reply

  /** Why an instance is set; the number identifies the block it is done for. */
  datatype Why = ByBody | LetGo(frame: nat) | GrabAdd(frame: nat) | GrabSet(frame: nat) | GiveBack(frame: nat)
               | Reclaim(frame: nat) | PutBack(frame: nat)

  datatype Call =
    | Create(name: nat)
    | Restore(name: nat)
    | Release(name: nat)
    | Put(why: Why, oid: string, value: string)
    | Get(oid: string)
    | Throw

  /** A call as it happened, with the exception it raised. A teardown call is made while another exception is on its
      way: the one its block ended with, or the first one that the same teardown raised. */
  datatype Event = Event(call: Call, exc: Option<nat>, during: Option<nat>)

  datatype State = State(cfg: Config, backups: map<nat, Config>, frames: nat, excs: nat,
                         errs: map<nat, seq<nat>>, trace: seq<Event>)

  /** A test body. */
  datatype Prog =
    | Skip
    | Write(oid: string, value: string)
    | Fail
    | Then(first: Prog, second: Prog)
    | Catch(body: Prog)
    | Rethrow(body: Prog, handler: Prog)
    | Backup(body: Prog)
    | Transaction(body: Prog)
    | Borrow(name: string, owner: string, borrower: string, subpath: string, body: Prog)
    | Saved(oids: seq<string>, body: Prog)

  /** The exception a program lets escape. */
  type Outcome = Option<nat>

  /** e.cleanup_errors */
  function Errs(s: State, e: nat): seq<nat> {
    if e in s.errs then s.errs[e] else []
  }

  /** One call: the oracle is asked by the number of calls so far. */
  function Act(o: Oracle, s: State, call: Call, during: Outcome): (State, Outcome) {
    match if call.Throw? then Refused(false, s.cfg) else o(|s.trace|)
    case Refused(_, after) =>
      var event := Event(call, Some(s.excs), during);
      (s.(cfg := if call.Restore? then after else s.cfg, excs := s.excs + 1, trace := s.trace + [event]), Some(s.excs))
    case Done =>
      var s' := s.(trace := s.trace + [Event(call, None, during)]);
      match call
      case Create(n) => (s'.(backups := s.backups[n := s.cfg]), None)
      case Restore(n) => (s'.(cfg := if n in s.backups then s.backups[n] else s.cfg), None)
      case Release(n) => (s'.(backups := s.backups - {n}), None)
      case Put(_, oid, value) => (s'.(cfg := s.cfg[oid := value]), None)
      case _ => (s', None)
  }

  function Do(o: Oracle, s: State, call: Call): (State, Outcome) {
    Act(o, s, call, None)
  }

  // ---- _cleanup.py -------------------------------------------------------------------------

  /** Every action, in order; the exceptions of those that failed. */
  function RunAll(o: Oracle, s: State, actions: seq<Call>, primary: Outcome): (State, seq<nat>)
    decreases |actions|
  {
    if actions == [] then (s, []) else
    var (s', e) := Act(o, s, actions[0], primary);
    var (s'', rest) := RunAll(o, s', actions[1..], if primary.Some? then primary else e);
    (s'', (if e.Some? then [e.value] else []) + rest)
  }

  function Attach(s: State, e: nat, failures: seq<nat>): State {
    s.(errs := s.errs[e := Errs(s, e) + failures])
  }

  /** cleanup_all: what it raises is None when there is a primary exception or nothing failed. */
  function CleanupAll(o: Oracle, s: State, actions: seq<Call>, primary: Outcome): (State, Outcome) {
    var (s', failures) := RunAll(o, s, actions, primary);
    if failures == [] then (s', None)
    else match primary
      case Some(e) => (Attach(s', e, failures), None)
      case None => (if |failures| > 1 then Attach(s', failures[0], failures[1..]) else s', Some(failures[0]))
  }

  /** try: body ends with `out`; finally: cleanup_all(actions, primary=out). */
  function Finally(o: Oracle, s: State, out: Outcome, actions: seq<Call>): (State, Outcome) {
    var (s', raised) := CleanupAll(o, s, actions, out);
    (s', if out.Some? then out else raised)
  }

  // ---- the blocks --------------------------------------------------------------------------

  function RsrcOid(agent: string, name: string): string {
    "/agent:" + agent + "/rsrc:" + name
  }

  function TargetOid(agent: string, subpath: string): string {
    "/agent:" + agent + "/" + subpath
  }

  /** grab_rsrc: add, and on a CfgError set. */
  function Grab(o: Oracle, s: State, f: nat, oid: string, target: string): (State, Outcome) {
    var (s', e) := Do(o, s, Put(GrabAdd(f), oid, target));
    var refused := e.Some? && o(|s.trace|).Refused? && o(|s.trace|).isCfgError;
    if refused then Do(o, s', Put(GrabSet(f), oid, target)) else (s', e)
  }

  /** The first occurrences: keys of a dict filled in this order. */
  function Firsts(oids: seq<string>): seq<string> {
    if oids == [] then []
    else
      var rest := Firsts(oids[..|oids| - 1]);
      if oids[|oids| - 1] in rest then rest else rest + [oids[|oids| - 1]]
  }

  function ReadAll(o: Oracle, s: State, oids: seq<string>): (State, Outcome)
    decreases |oids|
  {
    if oids == [] then (s, None) else
    var (s', e) := Do(o, s, Get(oids[0]));
    if e.Some? then (s', e) else ReadAll(o, s', oids[1..])
  }

  function Value(c: Config, oid: string): string {
    if oid in c then c[oid] else ""
  }

  function PutBacks(f: nat, c: Config, oids: seq<string>): seq<Call> {
    if oids == [] then [] else [Put(PutBack(f), oids[0], Value(c, oids[0]))] + PutBacks(f, c, oids[1..])
  }

  function NewFrame(s: State): State {
    s.(frames := s.frames + 1)
  }

  function Run(o: Oracle, s: State, p: Prog): (State, Outcome)
    decreases p, 0
  {
    match p
    case Skip => (s, None)
    case Write(oid, value) => Do(o, s, Put(ByBody, oid, value))
    case Fail => Do(o, s, Throw)
    case Then(first, second) =>
      var (s1, e) := Run(o, s, first);
      if e.Some? then (s1, e) else Run(o, s1, second)
    case Catch(body) => (Run(o, s, body).0, None)
    case Rethrow(body, handler) =>
      var (s1, out) := Run(o, s, body);
      if out.None? then (s1, None) else
      var (s2, e) := Run(o, s1, handler);
      (s2, if e.Some? then e else out)
    case Backup(body) =>
      var n := s.frames;
      var (s1, e) := Do(o, NewFrame(s), Create(n));
      if e.Some? then (s1, e) else
      var (s2, out) := Run(o, s1, body);
      Finally(o, s2, out, [Restore(n), Release(n)])
    case Transaction(body) =>
      var n := s.frames;
      var (s1, e) := Do(o, NewFrame(s), Create(n));
      if e.Some? then (s1, e) else
      var (s2, out) := Run(o, s1, body);
      Finally(o, s2, out, if out.Some? then [Restore(n), Release(n)] else [Release(n)])
    case Borrow(name, owner, borrower, subpath, body) =>
      var f := s.frames;
      var (s1, e) := Do(o, NewFrame(s), Put(LetGo(f), RsrcOid(owner, name), ""));
      if e.Some? then (s1, e) else
      var (s2, out) := Borrowed(o, s1, f, name, borrower, subpath, body);
      Finally(o, s2, out, [Put(Reclaim(f), RsrcOid(owner, name), TargetOid(owner, subpath))])
    case Saved(oids, body) =>
      var f := s.frames;
      var (s1, e) := ReadAll(o, NewFrame(s), oids);
      if e.Some? then (s1, e) else
      var (s2, out) := Run(o, s1, body);
      Finally(o, s2, out, PutBacks(f, s.cfg, Firsts(oids)))
  }

  /** The inner half of borrowed_rsrc: grab, body, release. */
  function Borrowed(o: Oracle, s: State, f: nat, name: string, borrower: string, subpath: string, body: Prog)
    : (State, Outcome)
    decreases body, 1
  {
    var (s2, e) := Grab(o, s, f, RsrcOid(borrower, name), TargetOid(borrower, subpath));
    if e.Some? then (s2, e) else
    var (s3, out) := Run(o, s2, body);
    Finally(o, s3, out, [Put(GiveBack(f), RsrcOid(borrower, name), "")])
  }
}
