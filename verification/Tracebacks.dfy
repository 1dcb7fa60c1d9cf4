/**
 _util.py: remote_tracebacks, the breadth-first search over __cause__ and __context__, whose graph may have cycles.
 */
module Tracebacks {
  import opened Common

  class Exc {
    var remoteTraceback: Option<string>
    var cause: Exc?
    var context: Exc?
  }

  predicate Blank(t: string) {
    forall c <- t :: IsSpace(c)
  }

  /** A finite set of exceptions that no chain leaves. */
  ghost predicate Closed(world: set<Exc>)
    reads world
  {
    forall x <- world :: (x.cause == null || x.cause in world) && (x.context == null || x.context in world)
  }

  ghost predicate Leads(y: Exc, x: Exc)
    reads y
  {
    y.cause == x || y.context == x
  }

  /** The exceptions at most n links away from the root. */
  ghost function Ball(world: set<Exc>, root: Exc?, n: nat): set<Exc>
    reads world
  {
    if n == 0 then set x <- world | x == root
    else Ball(world, root, n - 1) + set x <- world | exists y <- Ball(world, root, n - 1) :: y in world && Leads(y, x)
  }

  /** A traceback worth reporting that some exception of the set carries. */
  ghost predicate Carried(s: set<Exc>, t: string)
    reads s
  {
    !Blank(t) && exists x <- s :: x.remoteTraceback == Some(t)
  }

  /** It is carried by an exception at most n links away. */
  ghost predicate CarriedWithin(world: set<Exc>, root: Exc?, n: nat, t: string)
    reads world
  {
    Carried(world * Ball(world, root, n), t)
  }

  lemma {:induction false} BallGrows(world: set<Exc>, root: Exc?, n: nat, m: nat)
    requires n <= m
    ensures Ball(world, root, n) <= Ball(world, root, m) <= world
    decreases m
  {
    if m > 0 {
      BallGrows(world, root, if n < m then n else m - 1, m - 1);
    }
  }

  /** Once a ball is closed under the links it is all that is reachable. */
  lemma {:induction false} BallIsAll(world: set<Exc>, root: Exc?, d: nat, n: nat)
    requires forall y <- Ball(world, root, d), x <- world :: y in world && Leads(y, x) ==> x in Ball(world, root, d)
    ensures Ball(world, root, n) <= Ball(world, root, d)
  {
    if n <= d {
      BallGrows(world, root, n, d);
    } else {
      BallIsAll(world, root, d, n - 1);
    }
  }

  /** What is nearer comes first: whatever distance reaches a later traceback reaches the earlier ones too. */
  ghost predicate Ordered(world: set<Exc>, root: Exc?, out: seq<string>)
    reads world
  {
    forall i, j, n: nat | 0 <= i < j < |out| && CarriedWithin(world, root, n, out[j]) ::
      CarriedWithin(world, root, n, out[i])
  }

  /** The tracebacks that some chain from the root reaches. */
  ghost predicate Exactly(world: set<Exc>, root: Exc?, out: seq<string>)
    reads world
  {
    forall t :: t in out <==> exists n: nat :: CarriedWithin(world, root, n, t)
  }

  ghost predicate Distinct(out: seq<string>) {
    forall i, j | 0 <= i < j < |out| :: out[i] != out[j]
  }

  /** The state of the search: `near` of the queue is at distance d, the rest at most one further; everything at
      distance d is seen or near, and every link of a seen exception leads to one seen or queued. */
  ghost predicate Searching(world: set<Exc>, root: Exc?, d: nat, near: seq<Exc?>, far: seq<Exc?>, seen: set<Exc>)
    reads world
  {
    && seen <= Ball(world, root, d)
    && (forall x <- near :: x == null || x in Ball(world, root, d))
    && (forall x <- far :: x == null || x in Ball(world, root, d + 1))
    && (forall x <- Ball(world, root, d) :: x in seen || x in near)
    && (d > 0 ==> Ball(world, root, d - 1) <= seen)
    && (forall y <- seen :: y in world && (y.cause == null || y.cause in seen || y.cause in near || y.cause in far)
                            && (y.context == null || y.context in seen || y.context in near || y.context in far))
  }

  ghost predicate Reported(world: set<Exc>, root: Exc?, seen: set<Exc>, out: seq<string>)
    reads world
  {
    && seen <= world
    && (forall t :: t in out <==> Carried(world * seen, t))
    && Distinct(out) && Ordered(world, root, out)
  }

  /** When nothing near is left the search moves one link on. */
  lemma {:induction false} NextLevel(world: set<Exc>, root: Exc?, d: nat, far: seq<Exc?>, seen: set<Exc>)
    requires Closed(world) && Searching(world, root, d, [], far, seen)
    ensures Searching(world, root, d + 1, far, [], seen)
  {
    BallGrows(world, root, d, d + 1);
  }

  lemma {:induction false} Visit(world: set<Exc>, root: Exc?, d: nat, near: seq<Exc?>, far: seq<Exc?>, seen: set<Exc>)
    requires Closed(world) && near != [] && Searching(world, root, d, near, far, seen)
    ensures near[0] == null || near[0] in seen ==> Searching(world, root, d, near[1..], far, seen)
    ensures near[0] != null ==>
      near[0] in world
      && Searching(world, root, d, near[1..], far + [near[0].cause] + [near[0].context], seen + {near[0]})
  {
    hide Ball;
    BallGrows(world, root, d, d + 1);
    forall x | x in near && x != near[0]
      ensures x in near[1..]
    {
    }
    if near[0] != null {
      assert near[0] in near;
      OneFurther(world, root, d, near[0]);
      var far' := far + [near[0].cause] + [near[0].context];
      assert forall x <- far :: x in far';
      assert near[0].cause in far' && near[0].context in far';
    }
  }

  lemma {:induction false} OneFurther(world: set<Exc>, root: Exc?, d: nat, y: Exc)
    requires Closed(world) && y in Ball(world, root, d)
    ensures y in world
    ensures y.cause == null || y.cause in Ball(world, root, d + 1)
    ensures y.context == null || y.context in Ball(world, root, d + 1)
  {
    BallGrows(world, root, d, d);
  }

  lemma {:induction false} NotNearer(world: set<Exc>, root: Exc?, d: nat, near: seq<Exc?>, far: seq<Exc?>,
                                     seen: set<Exc>, t: string)
    requires Searching(world, root, d, near, far, seen) && !Carried(world * seen, t)
    ensures forall n: nat | n < d :: !CarriedWithin(world, root, n, t)
  {
    hide Ball;
    forall n: nat | n < d
      ensures !CarriedWithin(world, root, n, t)
    {
      BallGrows(world, root, n, d - 1);
      assert forall y <- world * Ball(world, root, n) :: y in world * seen;
    }
  }

  /** A traceback of an exception just reached, when no seen one carries it, belongs at the end. */
  lemma {:induction false} Report(world: set<Exc>, root: Exc?, d: nat, near: seq<Exc?>, far: seq<Exc?>, seen: set<Exc>,
                                  out: seq<string>, x: Exc)
    requires Searching(world, root, d, near, far, seen) && Reported(world, root, seen, out)
    requires x in world && x in Ball(world, root, d) && x !in seen
    ensures var tb := x.remoteTraceback;
      Reported(world, root, seen + {x}, if tb.Some? && !Blank(tb.value) && tb.value !in out then out + [tb.value]
        else out)
  {
    hide Ball, Blank;
    var tb := x.remoteTraceback;
    assert world * (seen + {x}) == (world * seen) + {x};
    if tb.Some? && !Blank(tb.value) && tb.value !in out {
      var t := tb.value;
      NotNearer(world, root, d, near, far, seen, t);
      forall i, n: nat | 0 <= i < |out| && CarriedWithin(world, root, n, t)
        ensures CarriedWithin(world, root, n, out[i])
      {
        BallGrows(world, root, d, n);
        assert out[i] in out;
        var z :| z in world * seen && z.remoteTraceback == Some(out[i]);
        assert z in Ball(world, root, d);
      }
    }
  }

  function Extended(out: seq<string>, tb: Option<string>): seq<string> {
    if tb.Some? && !Blank(tb.value) && tb.value !in out then out + [tb.value] else out
  }

  /** One turn of the loop. */
  lemma {:induction false} Turn(world: set<Exc>, root: Exc?, d: nat, near: seq<Exc?>, far: seq<Exc?>, seen: set<Exc>,
                                out: seq<string>)
    requires Closed(world) && near != [] && Searching(world, root, d, near, far, seen)
      && Reported(world, root, seen, out)
    ensures near[0] == null || near[0] in seen ==> Searching(world, root, d, near[1..], far, seen)
    ensures near[0] != null && near[0] !in seen ==>
      var x := near[0];
      && Searching(world, root, d, near[1..], far + [x.cause] + [x.context], seen + {x})
      && Reported(world, root, seen + {x}, Extended(out, x.remoteTraceback))
      && |world - (seen + {x})| < |world - seen|
      && near[1..] + (far + [x.cause] + [x.context]) == near[1..] + far + [x.cause] + [x.context]
  {
    hide Searching, Reported, Ball, Closed;
    Visit(world, root, d, near, far, seen);
    if near[0] != null && near[0] !in seen {
      NearIsInBall(world, root, d, near, far, seen);
      Report(world, root, d, near, far, seen, out, near[0]);
      assert world - (seen + {near[0]}) == (world - seen) - {near[0]};
    }
  }

  /** Every distinct traceback of a reachable exception, exactly once, nearest first; on any graph, cyclic or not. */
  method RemoteTracebacks(exc: Exc?, ghost world: set<Exc>) returns (out: seq<string>)
    requires Closed(world) && (exc == null || exc in world)
    ensures Exactly(world, exc, out)
    ensures Distinct(out) && Ordered(world, exc, out)
  {
    hide *;
    out := [];
    var seenExc: set<Exc> := {};
    var seenTb: set<string> := {};
    var queue: seq<Exc?> := [exc];
    ghost var d, near, far := 0, queue, [];
    Start(world, exc);
    while queue != []
      invariant queue == near + far && forall t :: t in seenTb <==> t in out
      invariant Searching(world, exc, d, near, far, seenExc) && Reported(world, exc, seenExc, out)
      decreases |world - seenExc|, |queue|
    {
      if near == [] {
        NextLevel(world, exc, d, far, seenExc);
        d, near, far := d + 1, far, [];
      }
      var cur := queue[0];
      assert cur == near[0] && queue[1..] == near[1..] + far;
      queue := queue[1..];
      Turn(world, exc, d, near, far, seenExc, out);
      if cur == null || cur in seenExc {
        near := near[1..];
        continue;
      }
      seenExc := seenExc + {cur};
      var tb := cur.remoteTraceback;
      ExtendedIs(out, tb);
      if tb.Some? && !Blank(tb.value) && tb.value !in seenTb {
        seenTb := seenTb + {tb.value};
        out := out + [tb.value];
      }
      queue := queue + [cur.cause];
      queue := queue + [cur.context];
      near, far := near[1..], far + [cur.cause] + [cur.context];
    }
    assert near == [] && far == [];
    Finished(world, exc, d, seenExc, out);
  }

  lemma {:induction false} ExtendedIs(out: seq<string>, tb: Option<string>)
    ensures Extended(out, tb) == if tb.Some? && !Blank(tb.value) && tb.value !in out then out + [tb.value] else out
  {
  }

  lemma {:induction false} Start(world: set<Exc>, root: Exc?)
    requires root == null || root in world
    ensures Searching(world, root, 0, [root], [], {}) && Reported(world, root, {}, [])
  {
  }

  lemma {:induction false} NearIsInBall(world: set<Exc>, root: Exc?, d: nat, near: seq<Exc?>, far: seq<Exc?>,
                                        seen: set<Exc>)
    requires near != [] && near[0] != null && Searching(world, root, d, near, far, seen)
    ensures near[0] in world && near[0] in Ball(world, root, d)
  {
    assert near[0] in near;
    BallGrows(world, root, d, d);
  }

  lemma {:induction false} Finished(world: set<Exc>, root: Exc?, d: nat, seen: set<Exc>, out: seq<string>)
    requires Searching(world, root, d, [], [], seen) && Reported(world, root, seen, out)
    ensures Exactly(world, root, out)
    ensures Distinct(out) && Ordered(world, root, out)
  {
    hide Ball, Distinct, Ordered;
    assert seen == Ball(world, root, d);
    forall t, n: nat | CarriedWithin(world, root, n, t)
      ensures t in out
    {
      BallIsAll(world, root, d, n);
      assert world * Ball(world, root, n) <= world * seen;
    }
    forall t | t in out
      ensures exists n: nat :: CarriedWithin(world, root, n, t)
    {
      assert CarriedWithin(world, root, d, t);
    }
  }
}
