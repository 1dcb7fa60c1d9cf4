/**
 The tapi_job objects as job.py sees them: what is live, and what each call frees.
 Every call needs live handles: a call with a freed one would be a use after free in the test process.
 */
module JobControl {
  type Handle = nat

  datatype Object =
    | AFactory
    | AJob
    | AChannel(job: Handle)
    | AnInput(job: Handle)
    | AFilter(job: Handle, attached: set<Handle>)
    | AWrapper(job: Handle)

  /** The objects that belong to a job and go with it. */
  predicate IsPart(x: Object, job: Handle) { !x.AFactory? && !x.AJob? && x.job == job }

  datatype Kind = Factory | Job | Output | Input | Filter | Wrapper

  function KindOf(x: Object): Kind {
    match x
    case AFactory => Factory
    case AJob => Job
    case AChannel(_) => Output
    case AnInput(_) => Input
    case AFilter(_, _) => Filter
    case AWrapper(_) => Wrapper
  }

  class Tapi {
    var live: map<Handle, Object>
    var next: Handle

    constructor ()
      ensures live == map[]
    {
      live, next := map[], 0;
    }

    predicate Sane() reads this {
      forall h <- live :: h < next && (live[h].AFactory? || live[h].AJob? || live[h].job < next)
    }

    method Make(x: Object) returns (h: Handle)
      requires Sane() && (x.AFactory? || x.AJob? || x.job < next)
      modifies this
      ensures Sane() && h == old(next) && next == h + 1 && live == old(live)[h := x]
    {
      h := next;
      live, next := live[h := x], next + 1;
    }

    method NewFactory(ok: bool) returns (h: Handle)
      requires Sane()
      modifies this
      ensures Sane() && h == old(next) && next >= old(next)
      ensures live == if ok then old(live)[h := AFactory] else old(live)
      ensures ok ==> h < next
    {
      h := next;
      if ok { h := Make(AFactory); }
    }

    method DestroyFactory(h: Handle)
      requires Sane() && h in live && live[h].AFactory?
      modifies this`live
      ensures Sane() && live == old(live) - {h}
    {
      live := live - {h};
    }

    method NewJob(factory: Handle, ok: bool) returns (h: Handle)
      requires Sane() && factory in live && live[factory].AFactory?
      modifies this
      ensures Sane() && h == old(next) && next >= old(next)
      ensures live == if ok then old(live)[h := AJob] else old(live)
      ensures ok ==> h < next
    {
      h := next;
      if ok { h := Make(AJob); }
    }

    /** Frees the job and all its parts, or, when the underlying stop fails, nothing. */
    method DestroyJob(h: Handle, ok: bool)
      requires Sane() && h in live && live[h].AJob?
      modifies this`live
      ensures Sane() && live == if ok then WithoutJob(old(live), h) else old(live)
    {
      if ok { live := WithoutJob(live, h); }
    }

    /** Any call that only uses live objects: start, wait, kill, send, receive, poll. */
    method Use(hs: seq<Handle>)
      requires forall h <- hs :: h in live
    {
    }

    method OutChannels(job: Handle, ok: bool) returns (o: Handle, e: Handle)
      requires Sane() && job in live && live[job].AJob?
      modifies this
      ensures Sane() && next >= old(next) && o == old(next) && e == o + 1
      ensures live == if ok then old(live)[o := AChannel(job)][e := AChannel(job)] else old(live)
      ensures ok ==> e < next
    {
      o, e := next, next + 1;
      if ok {
        o := Make(AChannel(job));
        e := Make(AChannel(job));
      }
    }

    method InChannel(job: Handle, ok: bool) returns (i: Handle)
      requires Sane() && job in live && live[job].AJob?
      modifies this
      ensures Sane() && next >= old(next) && i == old(next)
      ensures live == if ok then old(live)[i := AnInput(job)] else old(live)
      ensures ok ==> i < next
    {
      i := next;
      if ok { i := Make(AnInput(job)); }
    }

    method AddWrapper(job: Handle, ok: bool) returns (w: Handle)
      requires Sane() && job in live && live[job].AJob?
      modifies this
      ensures Sane() && next >= old(next) && w == old(next)
      ensures live == if ok then old(live)[w := AWrapper(job)] else old(live)
      ensures ok ==> w < next
    {
      w := next;
      if ok { w := Make(AWrapper(job)); }
    }

    method DeleteWrapper(w: Handle, ok: bool)
      requires Sane() && w in live && live[w].AWrapper?
      modifies this`live
      ensures Sane() && live == if ok then old(live) - {w} else old(live)
    {
      if ok { live := live - {w}; }
    }

    method AttachFilter(job: Handle, channels: set<Handle>, ok: bool) returns (f: Handle)
      requires Sane() && channels != {} && forall c <- channels :: c in live && live[c] == AChannel(job)
      modifies this
      ensures Sane() && next >= old(next) && f == old(next)
      ensures live == if ok then old(live)[f := AFilter(job, channels)] else old(live)
      ensures ok ==> f < next
    {
      f := next;
      if ok { f := Make(AFilter(job, channels)); }
    }

    /** A filter takes a channel of its own job, and once: adding another one or one it has fails. */
    method AddChannel(f: Handle, c: Handle, ok: bool) returns (done: bool)
      requires Sane() && f in live && live[f].AFilter? && c in live && live[c].AChannel?
      modifies this`live
      ensures Sane() && done == (ok && old(live)[c].job == old(live)[f].job && c !in old(live)[f].attached)
      ensures live == if done then old(live)[f := old(live)[f].(attached := old(live)[f].attached + {c})] else old(live)
    {
      done := ok && live[c].job == live[f].job && c !in live[f].attached;
      if done { live := live[f := live[f].(attached := live[f].attached + {c})]; }
    }

    /** A filter that loses its last channel is freed. */
    method RemoveChannel(f: Handle, c: Handle, ok: bool) returns (done: bool)
      requires Sane() && f in live && live[f].AFilter? && c in live && live[c].AChannel?
      modifies this`live
      ensures Sane() && done == (ok && c in old(live)[f].attached)
      ensures live == if done then WithoutChannel(old(live), f, c) else old(live)
    {
      done := ok && c in live[f].attached;
      if done { live := WithoutChannel(live, f, c); }
    }
  }

  function WithoutJob(live: map<Handle, Object>, job: Handle): map<Handle, Object> {
    map h <- live | h != job && !IsPart(live[h], job) :: live[h]
  }

  function WithoutChannel(live: map<Handle, Object>, f: Handle, c: Handle): map<Handle, Object>
    requires f in live && live[f].AFilter?
  {
    var left := live[f].attached - {c};
    if left == {} then live - {f} else live[f := live[f].(attached := left)]
  }
}
