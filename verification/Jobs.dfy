/**
 job.py: a job with its channels, filters and wrappers, and when their handles may be used.

 A job's Valid() says of every wrapper object it ever handed out that it holds a handle exactly while the C object is
 live, so that the calls below, which all demand live objects, can be made; `ok` parameters say which of them succeed.
 */
module Jobs {
  import opened Common
  import opened JobControl

  /** What a method raises. */
  datatype Failure = Closed | CallFailed(what: string) | StartedAlready | NoChannels | SetupRaised

  /** An exception with its cleanup_errors. */
  datatype Raised = Raised(failure: Failure, cleanupErrors: seq<Failure>)

  type Outcome = Option<Raised>

  /** What one receive brings; Silence is a timeout. */
  datatype Reply = Data(raw: string) | Eos | Silence

  function EosIn(t: seq<Reply>): nat {
    if t == [] then 0 else EosIn(t[..|t| - 1]) + if t[|t| - 1].Eos? then 1 else 0
  }

  function DataOf(t: seq<Reply>): string {
    if t == [] then "" else DataOf(t[..|t| - 1]) + if t[|t| - 1].Data? then t[|t| - 1].raw else ""
  }

  /** Replies up to the n-th end of stream. */
  ghost predicate Complete(t: seq<Reply>, n: int) {
    t != [] && t[|t| - 1].Eos? && EosIn(t) == n && Silence !in t
  }

  lemma {:induction false} EosGrows(t: seq<Reply>, i: nat, k: nat)
    requires i <= k <= |t|
    ensures EosIn(t[..i]) <= EosIn(t[..k])
  {
    if i < k {
      assert t[..k][..k - 1] == t[..k - 1];
      EosGrows(t, i, k - 1);
    }
  }

  /** No reply that completes the stream comes after a silence or a first completion. */
  lemma {:induction false} NotCompleteAfter(t: seq<Reply>, i: nat, n: int)
    requires i <= |t| && (EosIn(t[..i]) >= n || Silence in t[..i])
    ensures forall k :: i < k <= |t| ==> !Complete(t[..k], n)
  {
    forall k | i < k <= |t|
      ensures !Complete(t[..k], n)
    {
      assert t[..k][..i] == t[..i];
      assert t[..k][..k - 1] == t[..k - 1];
      EosGrows(t, i, k - 1);
      if Silence in t[..i] {
        var j :| 0 <= j < i && t[..i][j] == Silence;
        assert t[..k][j] == Silence;
      }
    }
  }

  /** An object of the job me and its factory. */
  predicate IsOf(k: Handle, live: map<Handle, Object>, me: Handle, factory: Handle) {
    k == me || k == factory || (k in live && IsPart(live[k], me))
  }

  /** Of the C objects only those of one job were made, changed or freed; what is new has a new handle. */
  ghost predicate OnlyOf(before: map<Handle, Object>, after: map<Handle, Object>, next: Handle, me: Handle,
                         factory: Handle) {
    && (forall k <- after :: (k in before && after[k] == before[k])
         || (IsOf(k, after, me, factory) && if k in before then IsOf(k, before, me, factory) else k >= next))
    && (forall k <- before :: k in after || IsOf(k, before, me, factory))
  }

  /** The C objects of one job were left alone. */
  ghost predicate Spares(before: map<Handle, Object>, after: map<Handle, Object>, next: Handle, me: Handle,
                         factory: Handle) {
    && (forall k <- after :: (k in before && after[k] == before[k])
         || (!IsOf(k, after, me, factory) && if k in before then !IsOf(k, before, me, factory) else k >= next))
    && (forall k <- before :: k in after || !IsOf(k, before, me, factory))
  }

  /** What is done to one job spares another. */
  lemma {:induction false} OnlyOfSpares(before: map<Handle, Object>, after: map<Handle, Object>, next: Handle,
                                        a: Handle, f: Handle, b: Handle, g: Handle)
    requires OnlyOf(before, after, next, a, f) && a != b && a != g && f != b && f != g
    requires AreJob(before, a, f) && AreJob(after, a, f) && AreJob(before, b, g) && b < next && g < next
    ensures Spares(before, after, next, b, g)
  {
  }

  /** A job and its factory, as far as they are live. */
  ghost predicate AreJob(live: map<Handle, Object>, me: Handle, factory: Handle) {
    (me in live ==> live[me] == AJob) && (factory in live ==> live[factory] == AFactory)
  }

  /** Only new parts of a job were made. */
  ghost predicate Sprouted(before: map<Handle, Object>, after: map<Handle, Object>, next: Handle, me: Handle) {
    && (forall k <- before :: k in after && after[k] == before[k])
    && (forall k <- after :: k in before || (k >= next && IsPart(after[k], me)))
  }

  lemma {:induction false} OneSprouts(before: map<Handle, Object>, k: Handle, x: Object, next: Handle, me: Handle)
    requires (forall h <- before :: h < next) && k >= next && IsPart(x, me)
    ensures Sprouted(before, before[k := x], next, me)
  {
  }

  lemma {:induction false} TwoSprout(before: map<Handle, Object>, k: Handle, x: Object, j: Handle, y: Object,
                                     next: Handle, me: Handle)
    requires (forall h <- before :: h < next) && k >= next && IsPart(x, me) && j > k && IsPart(y, me)
    ensures Sprouted(before, before[k := x][j := y], next, me)
  {
  }

  class Channel {
    const me: Handle
    const job: Job
    var h: Option<Handle>

    constructor (job: Job, handle: Handle)
      ensures this.job == job && me == handle && h == Some(handle)
    {
      this.job, me, h := job, handle, Some(handle);
    }
  }

  class InputChannel {
    const me: Handle
    const job: Job
    var h: Option<Handle>

    constructor (job: Job, handle: Handle)
      ensures this.job == job && me == handle && h == Some(handle)
    {
      this.job, me, h := job, handle, Some(handle);
    }

    method Send(ok: bool) returns (raised: Outcome)
      requires job.Valid() && this in job.inputs
      ensures raised == if h.None? then Some(Raised(Closed, []))
                        else if ok then None else Some(Raised(CallFailed("send"), []))
    {
      if h.None? {
        return Some(Raised(Closed, []));
      }
      job.c.Use([h.value]);
      return if ok then None else Some(Raised(CallFailed("send"), []));
    }
  }

  class Filter {
    const me: Handle
    const job: Job
    var h: Option<Handle>
    var nChannels: int

    constructor (job: Job, handle: Handle, n: int)
      ensures this.job == job && me == handle && h == Some(handle) && nChannels == n
    {
      this.job, me, h, nChannels := job, handle, Some(handle), n;
    }

    method Attach(ch: Channel, ok: bool) returns (raised: Outcome)
      requires job.Valid() && this in job.made && ch.job.Valid() && ch in ch.job.channels && ch.job.c == job.c
      requires ch.job != job ==> ch.job.me != job.me
      modifies this, job.c`live
      ensures job.Valid() && job.Evolves()
      ensures h == old(h) && (h.None? ==> raised == Some(Raised(Closed, [])))
      ensures raised.None? <==> old(h.Some? && ch.h.Some? && ok && ch.job == job && ch.me !in Attached())
      ensures raised.None? ==> Attached() == old(Attached()) + {ch.me}
      ensures raised.Some? ==> job.c.live == old(job.c.live)
    {
      hide job.Valid, job.ChannelsValid, job.InputsValid, job.FiltersValid, job.WrappersValid, job.Held, job.OnlyMine,
        job.Grown;
      job.NothingEvolves();
      job.FilterFacts(this);
      ch.job.ChannelFacts(ch);
      if h.None? || ch.h.None? {
        return Some(Raised(Closed, []));
      }
      var done := job.c.AddChannel(h.value, ch.h.value, ok);
      if !done {
        job.Same();
        job.NothingEvolves();
        return Some(Raised(CallFailed("filter_add_channels"), []));
      }
      nChannels := nChannels + 1;
      job.FilterChanged(this);
      job.ChangedIsMine(me);
      return None;
    }

    /** The filter dies with its last channel, and only then. */
    method Detach(ch: Channel, ok: bool) returns (raised: Outcome)
      requires job.Valid() && this in job.made && ch.job.Valid() && ch in ch.job.channels && ch.job.c == job.c
      modifies this, job.c`live
      ensures job.Valid() && job.Evolves()
      ensures old(h).None? ==> raised == Some(Raised(Closed, []))
      ensures raised.None? <==> old(h.Some? && ch.h.Some? && ok && ch.me in Attached())
      ensures raised.None? ==> (h.None? <==> old(Attached()) == {ch.me})
      ensures raised.None? && h.Some? ==> Attached() == old(Attached()) - {ch.me}
      ensures raised.Some? ==> h == old(h) && job.c.live == old(job.c.live)
    {
      hide job.Valid, job.ChannelsValid, job.InputsValid, job.FiltersValid, job.WrappersValid, job.Held, job.OnlyMine,
        job.Grown;
      job.NothingEvolves();
      job.FilterFacts(this);
      ch.job.ChannelFacts(ch);
      if h.None? || ch.h.None? {
        return Some(Raised(Closed, []));
      }
      ghost var before := Attached();
      var done := job.c.RemoveChannel(h.value, ch.h.value, ok);
      if !done {
        job.Same();
        job.NothingEvolves();
        return Some(Raised(CallFailed("filter_remove_channels"), []));
      }
      assert |before - {ch.me}| == |before| - 1;
      nChannels := nChannels - 1;
      if nChannels == 0 {
        h := None;
      }
      job.FilterChanged(this);
      job.ChangedIsMine(me);
      return None;
    }

    /** read_all over messages: it ends with one end of stream per attached channel. A fully detached filter reads as
        empty; one whose job was destroyed refuses. */
    method ReadAll(replies: seq<Reply>) returns (r: Result<string, Raised>)
      requires job.Valid() && this in job.made
      ensures nChannels <= 0 ==> r == Ok("")
      ensures nChannels > 0 && h.None? ==> r == Err(Raised(Closed, []))
      ensures h.Some? ==> (r.Ok? <==> exists k :: 0 < k <= |replies| && Complete(replies[..k], nChannels))
      ensures h.Some? ==> forall k | 0 < k <= |replies| && Complete(replies[..k], nChannels) ::
        r == Ok(DataOf(replies[..k]))
    {
      hide *;
      job.FilterFacts(this);
      r := Collect(h, nChannels, replies);
    }

    static method Collect(h: Option<Handle>, n: int, replies: seq<Reply>) returns (r: Result<string, Raised>)
      requires h.Some? ==> n > 0
      ensures n <= 0 ==> r == Ok("")
      ensures n > 0 && h.None? ==> r == Err(Raised(Closed, []))
      ensures h.Some? ==> (r.Ok? <==> exists k :: 0 < k <= |replies| && Complete(replies[..k], n))
      ensures h.Some? ==> forall k | 0 < k <= |replies| && Complete(replies[..k], n) :: r == Ok(DataOf(replies[..k]))
    {
      var eosSeen, i, raw := 0, 0, "";
      while eosSeen < n
        invariant 0 <= i <= |replies| && (i > 0 ==> h.Some?)
        invariant eosSeen == EosIn(replies[..i]) && raw == DataOf(replies[..i]) && Silence !in replies[..i]
        invariant i == 0 || eosSeen < n || replies[i - 1].Eos?
        invariant forall k | 0 < k < i :: !Complete(replies[..k], n)
        invariant n > 0 ==> eosSeen <= n
        decreases |replies| - i
      {
        if h.None? {
          return Err(Raised(Closed, []));
        }
        assert eosSeen < n && !Complete(replies[..i], n);
        if i == |replies| || replies[i].Silence? {
          if i < |replies| {
            assert replies[..i + 1][i] == Silence;
            NotCompleteAfter(replies, i + 1, n);
            assert Silence in replies[..i + 1];
          }
          return Err(Raised(CallFailed("receive"), []));
        }
        assert replies[..i + 1][..i] == replies[..i];
        match replies[i] {
          case Eos => eosSeen := eosSeen + 1;
          case Data(bytes) => raw := raw + bytes;
        }
        i := i + 1;
      }
      if n > 0 {
        assert Complete(replies[..i], n);
        NotCompleteAfter(replies, i, n);
      }
      return Ok(raw);
    }

    ghost function Attached(): set<Handle>
      requires h.Some? && h.value in job.c.live && job.c.live[h.value].AFilter?
      reads this, job.c
    {
      job.c.live[h.value].attached
    }
  }

  class Wrapper {
    const me: Handle
    const job: Job
    var deleted: bool

    constructor (job: Job, handle: Handle)
      ensures this.job == job && me == handle && !deleted
    {
      this.job, me, deleted := job, handle, false;
    }

    /** Idempotent; once the job is gone there is nothing left to delete. */
    method Delete(ok: bool) returns (raised: Outcome)
      requires job.Valid() && this in job.wrappers
      modifies this, job.c`live
      ensures job.Valid() && job.Evolves()
      ensures raised.Some? <==> !old(deleted) && job.h.Some? && !ok
      ensures raised.Some? ==> !deleted && job.c.live == old(job.c.live)
      ensures raised.None? ==> me !in job.c.live
      ensures job.c.live == old(job.c.live) || job.c.live == old(job.c.live) - {me}
    {
      hide job.Valid, job.ChannelsValid, job.InputsValid, job.FiltersValid, job.WrappersValid, job.Held, job.OnlyMine,
        job.Grown;
      job.NothingEvolves();
      job.WrapperFacts(this);
      if deleted || job.h.None? {
        return None;
      }
      job.c.DeleteWrapper(me, ok);
      if !ok {
        job.Same();
        job.NothingEvolves();
        return Some(Raised(CallFailed("wrapper_delete"), []));
      }
      deleted := true;
      job.WrapperDeleted(this);
      job.ChangedIsMine(me);
      return None;
    }
  }

  class Job {
    const c: Tapi
    const me: Handle
    const factoryMade: Handle
    var h: Option<Handle>
    var factory: Option<Handle>
    var started: bool
    var out: Option<(Channel, Channel)>
    var input: Option<InputChannel>
    var filters: seq<Filter>

    /** Every object this job ever handed out. */
    ghost var channels: set<Channel>
    ghost var inputs: set<InputChannel>
    ghost var made: set<Filter>
    ghost var wrappers: set<Wrapper>

    ghost predicate Valid()
      reads this, c, channels, inputs, made, wrappers
    {
      && c.Sane() && me < c.next && factoryMade < c.next && me != factoryMade
      && Held(h, me, AJob) && Held(factory, factoryMade, AFactory)
      && ChannelsValid() && InputsValid() && FiltersValid() && WrappersValid()
      && (h.None? ==> NothingLeft())
    }

    /** Nothing of this job is live. */
    ghost predicate NothingLeft()
      reads c
    {
      forall k <- c.live :: !IsPart(c.live[k], me)
    }

    /** A handle is held exactly while its object is live. */
    ghost predicate Held(held: Option<Handle>, made: Handle, x: Object)
      reads c
    {
      made < c.next
      && match held { case Some(k) => k == made && k in c.live && c.live[k] == x case None => made !in c.live }
    }

    ghost predicate ChannelsValid()
      reads this, c, channels
    {
      && (forall x <- channels :: x.job == this && Held(x.h, x.me, AChannel(me)) && (x.h.Some? <==> h.Some?))
      && (out.Some? ==> out.value.0 in channels && out.value.1 in channels && out.value.0.me != out.value.1.me
                        && channels == {out.value.0, out.value.1})
      && (h.Some? && out.None? ==> channels == {})
      && (h.None? ==> out.None?)
    }

    ghost predicate InputsValid()
      reads this, c, inputs
    {
      && (forall x <- inputs :: x.job == this && Held(x.h, x.me, AnInput(me)) && (x.h.Some? <==> h.Some?))
      && (input.Some? ==> inputs == {input.value})
      && (h.Some? && input.None? ==> inputs == {})
      && (h.None? ==> input.None?)
    }

    /** A filter holds its handle until it is detached from its last channel; n_channels counts what C has attached. */
    ghost predicate FiltersValid()
      reads this, c, made
    {
      && (forall f <- made :: f.job == this && f.me < c.next
            && match f.h {
                 case Some(k) => k == f.me && k in c.live && c.live[k].AFilter? && c.live[k].job == me
                                 && |c.live[k].attached| == f.nChannels > 0 && f in filters && h.Some?
                 case None => f.me !in c.live
               })
      && (forall f <- filters :: f in made)
      && (forall f, g | f in made && g in made && f.me == g.me :: f == g)
      && (h.None? ==> filters == [])
    }

    ghost predicate WrappersValid()
      reads this, c, wrappers
    {
      && (forall w <- wrappers :: w.job == this && w.me < c.next
            && if w.deleted || h.None? then w.me !in c.live else w.me in c.live && c.live[w.me] == AWrapper(me))
      && (forall v, w | v in wrappers && w in wrappers && v.me == w.me :: v == w)
    }

    // ---- what a call on this job may change ----

    twostate predicate OnlyMine()
      reads c
    {
      old(c.next) <= c.next && OnlyOf(old(c.live), c.live, old(c.next), me, factoryMade)
    }

    /** Objects are handed out new, and stay handed out. */
    twostate predicate HandsOut()
      reads this
    {
      && old(channels) <= channels && (forall x <- channels :: x in old(channels) || fresh(x))
      && old(inputs) <= inputs && (forall x <- inputs :: x in old(inputs) || fresh(x))
      && old(made) <= made && (forall x <- made :: x in old(made) || fresh(x))
      && old(wrappers) <= wrappers && (forall x <- wrappers :: x in old(wrappers) || fresh(x))
    }

    twostate predicate Evolves()
      reads this, c
    {
      OnlyMine() && HandsOut()
    }

    twostate predicate SameObjects()
      reads this
    {
      channels == old(channels) && inputs == old(inputs) && made == old(made) && wrappers == old(wrappers)
    }

    twostate lemma {:induction false} NothingEvolves()
      requires c.live == old(c.live) && old(c.next) <= c.next && SameObjects()
      ensures Evolves() && Grown()
    {
    }

    twostate lemma {:induction false} SproutIsMine()
      requires old(c.next) <= c.next && Sprouted(old(c.live), c.live, old(c.next), me)
      ensures OnlyMine() && Grown()
    {
    }

    /** A part of this job was changed or freed. */
    twostate lemma {:induction false} ChangedIsMine(k: Handle)
      requires c.next == old(c.next) && Touched({k}) && k in old(c.live) && IsPart(old(c.live)[k], me)
      requires k in c.live ==> IsPart(c.live[k], me)
      ensures OnlyMine()
    {
    }

    twostate lemma {:induction false} GoneIsMine()
      requires c.next == old(c.next)
      requires c.live == old(c.live) - {factoryMade} || c.live == WithoutJob(old(c.live), me) - {factoryMade}
      ensures OnlyMine()
    {
    }

    // ---- what a call that touches other objects leaves valid ----

    /** Only objects in s were made, changed or freed. */
    twostate predicate Touched(s: set<Handle>)
      reads c
    {
      && old(c.next) <= c.next
      && (forall k <- c.live :: k in s || (k in old(c.live) && c.live[k] == old(c.live)[k]))
      && (forall k <- old(c.live) :: k in s || k in c.live)
    }

    /** Everything that was live stays as it was. */
    twostate predicate Grown()
      reads c
    {
      forall k <- old(c.live) :: k in c.live && c.live[k] == old(c.live)[k]
    }

    twostate predicate NoneOf(s: set<Handle>, kind: Kind)
      reads c
    {
      forall k <- s :: k >= old(c.next) || (k in old(c.live) && KindOf(old(c.live)[k]) != kind)
    }

    twostate predicate ChannelsSame() reads this, channels {
      channels == old(channels) && out == old(out) && h == old(h) && forall x <- channels :: x.h == old(x.h)
    }

    twostate predicate InputsSame() reads this, inputs {
      inputs == old(inputs) && input == old(input) && h == old(h) && forall x <- inputs :: x.h == old(x.h)
    }

    twostate predicate FiltersSame() reads this, made {
      made == old(made) && filters == old(filters) && h == old(h) && forall f <- made ::
        f.h == old(f.h) && f.nChannels == old(f.nChannels)
    }

    twostate predicate WrappersSame() reads this, wrappers {
      wrappers == old(wrappers) && h == old(h) && forall w <- wrappers :: w.deleted == old(w.deleted)
    }

    twostate lemma {:induction false} ChannelsStay(s: set<Handle>)
      requires old(ChannelsValid()) && Touched(s) && NoneOf(s, Kind.Output) && ChannelsSame()
      ensures ChannelsValid()
    {
    }

    twostate lemma {:induction false} InputsStay(s: set<Handle>)
      requires old(InputsValid()) && Touched(s) && NoneOf(s, Kind.Input) && InputsSame()
      ensures InputsValid()
    {
    }

    twostate lemma {:induction false} FiltersStay(s: set<Handle>)
      requires old(FiltersValid()) && Touched(s) && NoneOf(s, Kind.Filter) && FiltersSame()
      ensures FiltersValid()
    {
    }

    twostate lemma {:induction false} WrappersStay(s: set<Handle>)
      requires old(WrappersValid()) && Touched(s) && NoneOf(s, Kind.Wrapper) && WrappersSame()
      ensures WrappersValid()
    {
    }

    twostate lemma {:induction false} JobStays(s: set<Handle>)
      requires old(Held(h, me, AJob)) && Touched(s) && NoneOf(s, Kind.Job) && h == old(h)
      ensures Held(h, me, AJob)
    {
    }

    twostate lemma {:induction false} FactoryStays(s: set<Handle>)
      requires old(Held(factory, factoryMade, AFactory)) && Touched(s) && NoneOf(s, Kind.Factory)
        && factory == old(factory)
      ensures Held(factory, factoryMade, AFactory)
    {
    }

    twostate lemma {:induction false} Same()
      requires old(Valid()) && c.Sane() && Touched({}) && factory == old(factory)
      requires ChannelsSame() && InputsSame() && FiltersSame() && WrappersSame()
      ensures Valid()
    {
      hide ChannelsValid, InputsValid, FiltersValid, WrappersValid, Held;
      JobStays({});
      FactoryStays({});
      ChannelsStay({});
      InputsStay({});
      FiltersStay({});
      WrappersStay({});
    }

    /** A filter took or lost a channel. */
    twostate lemma {:induction false} FilterChanged(f: Filter)
      requires old(Valid()) && f in made && old(f.h).Some? && c.Sane() && Touched({f.me}) && factory == old(factory)
      requires ChannelsSame() && InputsSame() && WrappersSame() && made == old(made) && filters == old(filters)
      requires forall g <- made :: g != f ==> g.h == old(g.h) && g.nChannels == old(g.nChannels)
      requires if f.h.None? then f.me !in c.live
               else f.h == old(f.h) && f.me in c.live && c.live[f.me].AFilter? && c.live[f.me].job == me
                    && |c.live[f.me].attached| == f.nChannels > 0
      ensures Valid()
    {
      hide ChannelsValid, InputsValid, FiltersValid, WrappersValid, Held;
      OneFilter(f);
      var s := {f.me};
      JobStays(s);
      FactoryStays(s);
      ChannelsStay(s);
      InputsStay(s);
      WrappersStay(s);
    }

    twostate lemma {:induction false} OneFilter(f: Filter)
      requires old(FiltersValid()) && f in made && old(f.h).Some? && c.Sane() && Touched({f.me})
      requires made == old(made) && filters == old(filters) && h == old(h)
      requires forall g <- made :: g != f ==> g.h == old(g.h) && g.nChannels == old(g.nChannels)
      requires if f.h.None? then f.me !in c.live
               else f.h == old(f.h) && f.me in c.live && c.live[f.me].AFilter? && c.live[f.me].job == me
                    && |c.live[f.me].attached| == f.nChannels > 0
      ensures FiltersValid() && f.me in old(c.live) && old(c.live)[f.me].AFilter?
    {
    }

    twostate lemma {:induction false} WrapperDeleted(w: Wrapper)
      requires old(Valid()) && w in wrappers && h.Some? && !old(w.deleted) && w.deleted && c.Sane() && Touched({w.me})
        && w.me !in c.live
      requires ChannelsSame() && InputsSame() && FiltersSame() && wrappers == old(wrappers) && factory == old(factory)
      requires forall v <- wrappers :: v != w ==> v.deleted == old(v.deleted)
      ensures Valid()
    {
      hide ChannelsValid, InputsValid, FiltersValid, WrappersValid, Held;
      OneWrapper(w);
      var s := {w.me};
      JobStays(s);
      FactoryStays(s);
      ChannelsStay(s);
      InputsStay(s);
      FiltersStay(s);
    }

    twostate lemma {:induction false} OneWrapper(w: Wrapper)
      requires old(WrappersValid()) && w in wrappers && h.Some? && h == old(h) && !old(w.deleted) && w.deleted
        && Touched({w.me})
      requires wrappers == old(wrappers) && w.me !in c.live
      requires forall v <- wrappers :: v != w ==> v.deleted == old(v.deleted)
      ensures WrappersValid() && w.me in old(c.live) && old(c.live)[w.me].AWrapper?
    {
    }

    twostate lemma {:induction false} ChannelsMade()
      requires old(Valid()) && h.Some? && old(out).None? && out.Some? && c.Sane() && old(c.next) < c.next
      requires var (o, e) := out.value;
        && channels == {o, e} && o.job == this && e.job == this && o.h == Some(o.me) && e.h == Some(e.me)
          && o.me == old(c.next) && e.me == o.me + 1 < c.next
        && c.live == old(c.live)[o.me := AChannel(me)][e.me := AChannel(me)]
      requires InputsSame() && FiltersSame() && WrappersSame() && factory == old(factory)
      ensures Valid()
    {
      hide InputsValid, FiltersValid, WrappersValid, Held;
      var s := {out.value.0.me, out.value.1.me};
      JobStays(s);
      FactoryStays(s);
      InputsStay(s);
      FiltersStay(s);
      WrappersStay(s);
      assert ChannelsValid() by { NewChannels(); }
    }

    twostate lemma {:induction false} NewChannels()
      requires h.Some? && out.Some?
      requires var (o, e) := out.value;
        && channels == {o, e} && o.job == this && e.job == this && o.h == Some(o.me) && e.h == Some(e.me)
          && o.me == old(c.next) && e.me == o.me + 1 < c.next
        && c.live == old(c.live)[o.me := AChannel(me)][e.me := AChannel(me)]
      ensures ChannelsValid()
    {
    }

    twostate lemma {:induction false} InputMade()
      requires old(Valid()) && h.Some? && old(input).None? && input.Some? && c.Sane() && old(c.next) < c.next
      requires var i := input.value;
        inputs == {i} && i.job == this && i.h == Some(i.me) && i.me == old(c.next)
          && c.live == old(c.live)[i.me := AnInput(me)]
      requires ChannelsSame() && FiltersSame() && WrappersSame() && factory == old(factory)
      ensures Valid()
    {
      hide ChannelsValid, FiltersValid, WrappersValid;
      var s := {input.value.me};
      JobStays(s);
      FactoryStays(s);
      ChannelsStay(s);
      FiltersStay(s);
      WrappersStay(s);
    }

    /** A wrapper object for a live C filter that had none. */
    twostate lemma {:induction false} FilterMade(new f: Filter)
      requires old(Valid()) && h.Some? && c.live == old(c.live) && c.next == old(c.next)
      requires f.job == this && f.h == Some(f.me) && f.me in c.live && c.live[f.me].AFilter? && c.live[f.me].job == me
      requires |c.live[f.me].attached| == f.nChannels > 0 && forall g <- old(made) :: g.me != f.me
      requires made == old(made) + {f} && filters == old(filters) + [f]
      requires forall g <- old(made) :: g.h == old(g.h) && g.nChannels == old(g.nChannels)
      requires ChannelsSame() && InputsSame() && WrappersSame() && factory == old(factory)
      ensures Valid()
    {
    }

    /** A new C filter that no wrapper object holds. */
    twostate lemma {:induction false} LeftBehind(k: Handle)
      requires old(Valid()) && h.Some? && c.Sane() && old(c.next) < c.next && k == old(c.next)
      requires k in c.live && c.live == old(c.live)[k := c.live[k]]
      requires ChannelsSame() && InputsSame() && FiltersSame() && WrappersSame() && factory == old(factory)
      ensures Valid()
    {
      hide ChannelsValid, InputsValid, FiltersValid, WrappersValid, Held;
      var s := {k};
      JobStays(s);
      FactoryStays(s);
      ChannelsStay(s);
      InputsStay(s);
      FiltersStay(s);
      WrappersStay(s);
    }

    twostate lemma {:induction false} WrapperMade(new w: Wrapper)
      requires old(Valid()) && h.Some? && c.Sane() && old(c.next) < c.next
      requires w.job == this && !w.deleted && w.me == old(c.next) && c.live == old(c.live)[w.me := AWrapper(me)]
      requires wrappers == old(wrappers) + {w} && forall v <- old(wrappers) :: v.deleted == old(v.deleted)
      requires ChannelsSame() && InputsSame() && FiltersSame() && factory == old(factory)
      ensures Valid()
    {
      hide ChannelsValid, InputsValid, FiltersValid;
      var s := {w.me};
      JobStays(s);
      FactoryStays(s);
      ChannelsStay(s);
      InputsStay(s);
      FiltersStay(s);
    }

    /** C freed the job with everything that belongs to it, and the wrapper objects let go. */
    twostate lemma {:induction false} Died()
      requires old(Valid()) && old(h).Some? && c.Sane() && c.next == old(c.next)
        && c.live == WithoutJob(old(c.live), me)
      requires AllDead() && factory == old(factory)
      requires Fixed(old(channels), old(inputs), old(made), old(wrappers)) && forall w <- wrappers ::
        w.deleted == old(w.deleted)
      ensures Valid()
    {
    }

    /** The factory is gone. */
    twostate lemma {:induction false} FactoryGone()
      requires old(Valid()) && factory.None? && c.Sane() && c.next == old(c.next)
        && c.live == old(c.live) - {factoryMade}
      requires ChannelsSame() && InputsSame() && FiltersSame() && WrappersSame()
      ensures Valid()
    {
      hide ChannelsValid, InputsValid, FiltersValid, WrappersValid;
      var s := if old(factory).Some? then {factoryMade} else {};
      JobStays(s);
      ChannelsStay(s);
      InputsStay(s);
      FiltersStay(s);
      WrappersStay(s);
      assert forall k <- c.live :: k in old(c.live) && c.live[k] == old(c.live)[k];
    }

    // ---- what calls on other jobs leave valid ----

    /** Objects were touched that are not this job's, neither before nor after. */
    twostate predicate NotMine(s: set<Handle>)
      reads c
    {
      forall k <- s :: (if k in old(c.live) then !IsOf(k, old(c.live), me, factoryMade) else k >= old(c.next))
        && (k in c.live ==> !IsOf(k, c.live, me, factoryMade))
    }

    twostate lemma {:induction false} ChannelsSpared(s: set<Handle>)
      requires old(ChannelsValid()) && Touched(s) && NotMine(s) && ChannelsSame()
      ensures ChannelsValid()
    {
    }

    twostate lemma {:induction false} InputsSpared(s: set<Handle>)
      requires old(InputsValid()) && Touched(s) && NotMine(s) && InputsSame()
      ensures InputsValid()
    {
    }

    twostate lemma {:induction false} FiltersSpared(s: set<Handle>)
      requires old(FiltersValid()) && Touched(s) && NotMine(s) && FiltersSame()
      ensures FiltersValid()
    {
    }

    twostate lemma {:induction false} WrappersSpared(s: set<Handle>)
      requires old(WrappersValid()) && Touched(s) && NotMine(s) && WrappersSame()
      ensures WrappersValid()
    {
    }

    twostate lemma {:induction false} JobSpared(s: set<Handle>)
      requires old(Held(h, me, AJob) && Held(factory, factoryMade, AFactory)) && Touched(s) && NotMine(s)
      requires h == old(h) && factory == old(factory)
      ensures Held(h, me, AJob) && Held(factory, factoryMade, AFactory)
    {
    }

    /** A job is not disturbed by what happens to other C objects. */
    twostate lemma {:induction false} Undisturbed(s: set<Handle>)
      requires old(Valid()) && c.Sane() && Touched(s) && NotMine(s) && factory == old(factory)
      requires ChannelsSame() && InputsSame() && FiltersSame() && WrappersSame()
      ensures Valid()
    {
      hide ChannelsValid, InputsValid, FiltersValid, WrappersValid, Held, IsOf;
      JobSpared(s);
      ChannelsSpared(s);
      InputsSpared(s);
      FiltersSpared(s);
      WrappersSpared(s);
      assert h.None? ==> NothingLeft() by { NothingSpared(s); }
    }

    twostate lemma {:induction false} NothingSpared(s: set<Handle>)
      requires Touched(s) && NotMine(s)
      ensures old(NothingLeft()) ==> NothingLeft()
    {
    }

    /** Two jobs have no C object in common. */
    ghost predicate Apart(b: Job) {
      me != b.me && me != b.factoryMade && factoryMade != b.me && factoryMade != b.factoryMade
    }

    /** What spares this job's C objects leaves it valid. */
    twostate lemma {:induction false} Stays()
      requires old(Valid()) && c.Sane() && old(c.next) <= c.next
        && Spares(old(c.live), c.live, old(c.next), me, factoryMade)
      requires factory == old(factory) && ChannelsSame() && InputsSame() && FiltersSame() && WrappersSame()
      ensures Valid()
    {
      hide Valid, IsOf;
      var made := set k <- c.live | k !in old(c.live) || c.live[k] != old(c.live)[k];
      var gone := set k <- old(c.live) | k !in c.live;
      Undisturbed(made + gone);
    }

    // ---- what validity says of one object ----

    lemma {:induction false} JobFacts()
      requires Valid()
      ensures c.Sane() && (h.Some? ==> h == Some(me) && me in c.live && c.live[me] == AJob)
      ensures factory.Some? ==> factory == Some(factoryMade) && factoryMade in c.live && c.live[factoryMade] == AFactory
      ensures factory.None? ==> factoryMade !in c.live
    {
    }

    lemma {:induction false} WithoutNothing()
      requires Valid() && h.None?
      ensures WithoutJob(c.live, me) == c.live
    {
    }

    /** Who still holds handles. */
    lemma {:induction false} ChildrenFacts()
      requires Valid()
      ensures h.None? ==> AllDead()
      ensures h.Some? ==> channels == (if out.Some? then {out.value.0, out.value.1} else {})
      ensures h.Some? ==> inputs == if input.Some? then {input.value} else {}
      ensures forall f <- filters :: f in made
      ensures forall f <- made :: f.h.Some? ==> f in filters
    {
    }

    lemma {:induction false} ChannelFacts(x: Channel)
      requires Valid() && x in channels
      ensures c.Sane() && x.h == if h.Some? then Some(x.me) else None
      ensures h.Some? ==> x.me in c.live && c.live[x.me] == AChannel(me)
    {
    }

    lemma {:induction false} FilterFacts(f: Filter)
      requires Valid() && f in made
      ensures f.h == None || f.h == Some(f.me)
      ensures f.h.None? ==> f.me !in c.live
      ensures f.h.Some? ==>
        f.me in c.live && c.live[f.me].AFilter? && c.live[f.me].job == me && |c.live[f.me].attached| == f.nChannels > 0
      ensures f.h.Some? ==> h.Some? && f in filters
    {
    }

    lemma {:induction false} WrapperFacts(w: Wrapper)
      requires Valid() && w in wrappers
      ensures c.Sane() && if w.deleted || h.None? then w.me !in c.live
        else w.me in c.live && c.live[w.me] == AWrapper(me)
    {
    }

    constructor (c: Tapi, factory: Handle, handle: Handle)
      requires c.Sane() && factory in c.live && c.live[factory] == AFactory && handle in c.live
        && c.live[handle] == AJob
      ensures Valid() && this.c == c && factoryMade == factory && h == Some(handle) && this.factory == Some(factory)
        && me == handle
      ensures !started && out.None? && input.None? && filters == []
      ensures channels == {} && inputs == {} && made == {} && wrappers == {}
    {
      this.c, me, factoryMade := c, handle, factory;
      h, this.factory := Some(handle), Some(factory);
      started, out, input, filters := false, None, None, [];
      channels, inputs, made, wrappers := {}, {}, {}, {};
    }

    /** stdout and stderr, allocated together on first use. */
    method AllocOut(ok: bool) returns (raised: Outcome)
      requires Valid()
      modifies this`out, this`channels, c
      ensures Valid() && Evolves()
      ensures raised == if old(out).Some? then None else if h.None? then Some(Raised(Closed, []))
                        else if !ok then Some(Raised(CallFailed("alloc_output_channels"), [])) else None
      ensures old(out).Some? || raised.Some? ==> out == old(out) && c.live == old(c.live) && channels == old(channels)
      ensures raised.None? ==> out.Some?
      ensures Grown()
      ensures old(out).None? && raised.None? ==> out.value.0.me == old(c.next) && out.value.1.me == old(c.next) + 1
      ensures out != old(out) ==> fresh(out.value.0) && fresh(out.value.1)
    {
      hide Valid, ChannelsValid, InputsValid, FiltersValid, WrappersValid, Held, OnlyMine, Grown, Sprouted;
      JobFacts();
      ChildrenFacts();
      NothingEvolves();
      if out.None? {
        if h.None? {
          return Some(Raised(Closed, []));
        }
        raised := NewOut(ok);
        return;
      }
      return None;
    }

    method NewOut(ok: bool) returns (raised: Outcome)
      requires Valid() && h.Some? && out.None?
      modifies this`out, this`channels, c
      ensures Valid() && Evolves() && Grown()
      ensures raised == if ok then None else Some(Raised(CallFailed("alloc_output_channels"), []))
      ensures !ok ==> out == old(out) && c.live == old(c.live) && channels == old(channels)
      ensures ok ==> out.Some? && fresh(out.value.0) && fresh(out.value.1)
      ensures ok ==> out.value.0.me == old(c.next) && out.value.1.me == old(c.next) + 1
    {
      hide Valid, ChannelsValid, InputsValid, FiltersValid, WrappersValid, Held, OnlyMine, Grown, Sprouted;
      JobFacts();
      ChildrenFacts();
      var o, e := c.OutChannels(h.value, ok);
      if !ok {
        Same();
        NothingEvolves();
        return Some(Raised(CallFailed("alloc_output_channels"), []));
      }
      var stdout := new Channel(this, o);
      var stderr := new Channel(this, e);
      out := Some((stdout, stderr));
      channels := {stdout, stderr};
      ChannelsMade();
      TwoSprout(old(c.live), o, AChannel(me), e, AChannel(me), old(c.next), me);
      SproutIsMine();
      return None;
    }

    /** The input channel: first use must come before start. */
    method Stdin(ok: bool) returns (raised: Outcome)
      requires Valid()
      modifies this`input, this`inputs, c
      ensures Valid() && Evolves()
      ensures raised == if old(input).Some? then None else if started then Some(Raised(StartedAlready, []))
                        else if h.None? then Some(Raised(Closed, []))
                        else if !ok then Some(Raised(CallFailed("alloc_input_channels"), [])) else None
      ensures old(input).Some? || raised.Some? ==> input == old(input) && c.live == old(c.live) && inputs == old(inputs)
      ensures raised.None? ==> input.Some?
      ensures Grown()
      ensures input != old(input) ==> fresh(input.value)
    {
      hide Valid, ChannelsValid, InputsValid, FiltersValid, WrappersValid, Held, OnlyMine, Grown, Sprouted;
      JobFacts();
      ChildrenFacts();
      NothingEvolves();
      if input.None? {
        if started {
          return Some(Raised(StartedAlready, []));
        }
        if h.None? {
          return Some(Raised(Closed, []));
        }
        var i := c.InChannel(h.value, ok);
        if !ok {
          Same();
          NothingEvolves();
          return Some(Raised(CallFailed("alloc_input_channels"), []));
        }
        var x := new InputChannel(this, i);
        input := Some(x);
        inputs := {x};
        InputMade();
        OneSprouts(old(c.live), i, AnInput(me), old(c.next), me);
        SproutIsMine();
      }
      return None;
    }

    /** _attach_filter: a filter whose regular expression is refused stays behind in C, where only the job frees it. */
    method AttachFilter(chans: seq<Channel>, regex: bool, ok: bool, okRegex: bool) returns (r: Result<Filter, Raised>)
      requires Valid() && forall x <- chans :: x in channels
      requires forall i, j | 0 <= i < j < |chans| :: chans[i] != chans[j]
      modifies this`filters, this`made, c
      ensures Valid() && Evolves()
      ensures r.Ok? <==> chans != [] && h.Some? && ok && (regex ==> okRegex)
      ensures r.Err? ==> filters == old(filters) && made == old(made)
      ensures r.Ok? ==> fresh(r.value) && filters == old(filters) + [r.value] && made == old(made) + {r.value}
      ensures r.Ok? ==> r.value.job == this && r.value.h.Some? && r.value.Attached() == set x <- chans :: x.me
      ensures if chans != [] && h.Some? && ok then Grown() else c.live == old(c.live)
    {
      hide Valid, ChannelsValid, InputsValid, FiltersValid, WrappersValid, Held;
      var k :- NewFilter(chans, ok);
      var f := new Filter(this, k, |chans|);
      if regex {
        c.Use([f.h.value]);
        if !okRegex {
          return Err(Raised(CallFailed("filter_add_regexp"), []));
        }
      }
      Register(f);
      return Ok(f);
    }

    /** The C filter, before any wrapper object holds it. */
    method NewFilter(chans: seq<Channel>, ok: bool) returns (r: Result<Handle, Raised>)
      requires Valid() && forall x <- chans :: x in channels
      requires forall i, j | 0 <= i < j < |chans| :: chans[i] != chans[j]
      modifies c
      ensures Valid() && OnlyMine()
      ensures r.Ok? <==> chans != [] && h.Some? && ok
      ensures r.Err? ==> c.live == old(c.live)
      ensures r.Ok? ==> |chans| > 0 && h.Some? && forall f <- made :: f.me != r.value
      ensures r.Ok? ==> var xs := set x <- chans :: x.me;
        |xs| == |chans| && r.value !in old(c.live) && c.live == old(c.live)[r.value := AFilter(me, xs)]
    {
      hide Valid, ChannelsValid, InputsValid, FiltersValid, WrappersValid, Held;
      BelowNext();
      var handles :- HandlesFor(chans);
      var k := c.AttachFilter(me, handles, ok);
      if !ok {
        Same();
        return Err(Raised(CallFailed("attach_filter"), []));
      }
      LeftBehind(k);
      OneSprouts(old(c.live), k, c.live[k], old(c.next), me);
      SproutIsMine();
      return Ok(k);
    }

    method Register(f: Filter)
      requires Valid() && h.Some? && f.me in c.live && c.live[f.me].AFilter? && c.live[f.me].job == me
      requires f.job == this && f.h == Some(f.me) && |c.live[f.me].attached| == f.nChannels > 0 && forall g <- made ::
        g.me != f.me
      modifies this`filters, this`made
      ensures Valid() && filters == old(filters) + [f] && made == old(made) + {f}
    {
      hide Valid;
      filters := filters + [f];
      made := made + {f};
      FilterMade(f);
    }

    lemma {:induction false} BelowNext()
      requires Valid()
      ensures c.Sane() && forall f <- made :: f.me < c.next
    {
    }

    lemma {:induction false} TwoChannels(x: Channel, y: Channel)
      requires ChannelsValid() && h.Some? && x in channels && y in channels && x != y
      ensures x.me != y.me
    {
    }

    lemma {:induction false} HandlesAreDistinct(chans: seq<Channel>)
      requires ChannelsValid() && h.Some? && forall x <- chans :: x in channels
      requires forall i, j | 0 <= i < j < |chans| :: chans[i] != chans[j]
      ensures |set x <- chans :: x.me| == |chans|
    {
      hide ChannelsValid;
      if chans != [] {
        var last, rest := chans[|chans| - 1], chans[..|chans| - 1];
        HandlesAreDistinct(rest);
        forall x | x in rest
          ensures x.me != last.me
        {
          TwoChannels(x, last);
        }
        assert (set x <- chans :: x.me) == (set x <- rest :: x.me) + {last.me};
      }
    }

    /** The live handles of some channels. */
    method HandlesFor(chans: seq<Channel>) returns (r: Result<set<Handle>, Raised>)
      requires Valid() && forall x <- chans :: x in channels
      requires forall i, j | 0 <= i < j < |chans| :: chans[i] != chans[j]
      ensures r == if chans == [] then Err(Raised(NoChannels, [])) else if h.None? then Err(Raised(Closed, []))
                   else Ok(set x <- chans :: x.me)
      ensures r.Ok? ==> c.Sane() && h == Some(me) && r.value != {} && |r.value| == |chans|
      ensures r.Ok? ==> forall k <- r.value :: k in c.live && c.live[k] == AChannel(me)
    {
      hide FiltersValid, InputsValid, WrappersValid;
      if chans == [] {
        return Err(Raised(NoChannels, []));
      }
      assert chans[0] in chans;
      if exists x <- chans :: x.h.None? {
        return Err(Raised(Closed, []));
      }
      HandlesAreDistinct(chans);
      var handles := set x <- chans :: x.h.value;
      assert handles == set x <- chans :: x.me;
      assert chans[0].me in handles;
      return Ok(handles);
    }

    method Wrap(ok: bool) returns (r: Result<Wrapper, Raised>)
      requires Valid()
      modifies this`wrappers, c
      ensures Valid() && Evolves()
      ensures r.Ok? <==> h.Some? && ok
      ensures r.Err? ==> c.live == old(c.live) && wrappers == old(wrappers)
      ensures Grown()
      ensures r.Ok? ==>
        fresh(r.value) && r.value.job == this && !r.value.deleted && wrappers == old(wrappers) + {r.value}
    {
      hide Valid, ChannelsValid, InputsValid, FiltersValid, WrappersValid, Held, OnlyMine, Grown, Sprouted;
      JobFacts();
      NothingEvolves();
      if h.None? {
        return Err(Raised(Closed, []));
      }
      var k := c.AddWrapper(h.value, ok);
      if !ok {
        Same();
        NothingEvolves();
        return Err(Raised(CallFailed("wrap"), []));
      }
      var w := new Wrapper(this, k);
      wrappers := wrappers + {w};
      WrapperMade(w);
      OneSprouts(old(c.live), k, AWrapper(me), old(c.next), me);
      SproutIsMine();
      return Ok(w);
    }

    method Start(ok: bool) returns (raised: Outcome)
      requires Valid()
      modifies this`started
      ensures Valid()
      ensures raised == if h.None? then Some(Raised(Closed, []))
                        else if ok then None else Some(Raised(CallFailed("start"), []))
      ensures started == (old(started) || raised.None?)
    {
      if h.None? {
        return Some(Raised(Closed, []));
      }
      c.Use([h.value]);
      if !ok {
        return Some(Raised(CallFailed("start"), []));
      }
      started := true;
      return None;
    }

    /** wait, kill, stop and the other calls that only need the job. */
    method Call(what: string, ok: bool) returns (raised: Outcome)
      requires Valid()
      ensures raised == if h.None? then Some(Raised(Closed, []))
                        else if ok then None else Some(Raised(CallFailed(what), []))
    {
      if h.None? {
        return Some(Raised(Closed, []));
      }
      c.Use([h.value]);
      return if ok then None else Some(Raised(CallFailed(what), []));
    }

    /** restart: what the stop of a live job raises is ignored. */
    method Restart(okStop: bool, okStart: bool) returns (raised: Outcome)
      requires Valid()
      modifies this`started
      ensures Valid()
      ensures raised == if h.None? then Some(Raised(Closed, []))
                        else if okStart then None else Some(Raised(CallFailed("start"), []))
      ensures started == (old(started) || raised.None?)
    {
      raised := Call("stop", okStop);
      if raised.None? || raised.value.failure.CallFailed? {
        raised := Start(okStart);
      }
    }

    /** The job's side of destroy: nothing is invalidated unless C freed it. */
    method DestroyJobOnce(ok: bool) returns (raised: Option<Failure>)
      requires Valid()
      modifies this, c`live, channels, inputs, made
      ensures Valid()
      ensures Fixed(old(channels), old(inputs), old(made), old(wrappers)) && factory == old(factory)
        && started == old(started)
      ensures raised.Some? <==> old(h).Some? && !ok
      ensures raised.Some? ==> raised.value == CallFailed("destroy")
      ensures raised.Some? ==> Untouched(old(h), old(out), old(input), old(filters)) && c.live == old(c.live)
      ensures raised.Some? ==> forall f <- made :: f.h == old(f.h) && f.nChannels == old(f.nChannels)
      ensures raised.Some? ==> (forall x <- channels :: x.h == old(x.h)) && (forall x <- inputs :: x.h == old(x.h))
      ensures raised.None? ==> AllDead() && c.live == if old(h).Some? then WithoutJob(old(c.live), me) else old(c.live)
    {
      hide Valid, ChannelsValid, InputsValid, FiltersValid, WrappersValid, Held, WithoutJob;
      JobFacts();
      ChildrenFacts();
      if h.None? {
        return None;
      }
      c.DestroyJob(h.value, ok);
      if !ok {
        Same();
        return Some(CallFailed("destroy"));
      }
      LetGo();
      Died();
      return None;
    }

    /** Every wrapper object of the job loses its handle. */
    method LetGo()
      requires channels == (if out.Some? then {out.value.0, out.value.1} else {})
      requires inputs == if input.Some? then {input.value} else {}
      requires (forall f <- filters :: f in made) && (forall f <- made :: f.h.Some? ==> f in filters)
      modifies this, channels, inputs, made
      ensures AllDead() && Fixed(old(channels), old(inputs), old(made), old(wrappers))
      ensures factory == old(factory) && started == old(started)
    {
      h := None;
      if out.Some? {
        out.value.0.h := None;
        out.value.1.h := None;
      }
      if input.Some? {
        input.value.h := None;
      }
      LetGoOfFilters();
      out, input, filters := None, None, [];
    }

    method LetGoOfFilters()
      requires (forall f <- filters :: f in made) && (forall f <- made :: f.h.Some? ==> f in filters)
      modifies made
      ensures forall f <- made :: f.h.None?
    {
      var i := 0;
      while i < |filters|
        invariant 0 <= i <= |filters|
        invariant forall f <- made :: f.h.None? || f in filters[i..]
      {
        assert filters[i] in filters && filters[i..] == [filters[i]] + filters[i + 1..];
        filters[i].h := None;
        i := i + 1;
      }
    }

    ghost predicate Fixed(channels: set<Channel>, inputs: set<InputChannel>, made: set<Filter>, wrappers: set<Wrapper>)
      reads this
    {
      this.channels == channels && this.inputs == inputs && this.made == made && this.wrappers == wrappers
    }

    ghost predicate Untouched(h: Option<Handle>, out: Option<(Channel, Channel)>, input: Option<InputChannel>,
                              filters: seq<Filter>)
      reads this
    {
      this.h == h && this.out == out && this.input == input && this.filters == filters
    }

    /** No object this job ever handed out holds a handle any more. */
    ghost predicate AllDead()
      reads this, channels, inputs, made
    {
      && h.None? && out.None? && input.None? && filters == []
      && (forall x <- channels :: x.h.None?) && (forall x <- inputs :: x.h.None?) && (forall f <- made :: f.h.None?)
    }

    /** The factory's side: it is let go of before the call, which frees it whatever is reported. */
    method DestroyFactoryOnce(ok: bool) returns (raised: Option<Failure>)
      requires Valid()
      modifies this`factory, c`live
      ensures Valid() && factory.None?
      ensures c.live == old(c.live) - {factoryMade}
      ensures raised.Some? <==> old(factory).Some? && !ok
      ensures raised.Some? ==> raised.value == CallFailed("factory_destroy")
    {
      hide Valid, ChannelsValid, InputsValid, FiltersValid, WrappersValid, Held, WithoutJob;
      JobFacts();
      if factory.None? {
        return None;
      }
      var k := factory.value;
      factory := None;
      c.DestroyFactory(k);
      FactoryGone();
      if !ok {
        return Some(CallFailed("factory_destroy"));
      }
      return None;
    }

    /** Both sides are attempted; a failed one leaves the job and all its children usable, and a later call retries
        it. */
    method Destroy(okJob: bool, okFactory: bool) returns (raised: Outcome)
      requires Valid()
      modifies this, c`live, channels, inputs, made
      ensures Valid() && factory.None? && Evolves()
      ensures Fixed(old(channels), old(inputs), old(made), old(wrappers)) && started == old(started)
      ensures var jobFails, factoryFails := old(h).Some? && !okJob, old(factory).Some? && !okFactory;
        && (jobFails ==> Untouched(old(h), old(out), old(input), old(filters)))
        && (jobFails ==> forall f <- made :: f.h == old(f.h) && f.nChannels == old(f.nChannels))
        && (jobFails ==> (forall x <- channels :: x.h == old(x.h)) && (forall x <- inputs :: x.h == old(x.h)))
        && (jobFails ==> c.live == old(c.live) - {factoryMade})
        && (!jobFails ==> AllDead() && c.live == WithoutJob(old(c.live), me) - {factoryMade})
        && var alongside := if factoryFails then [CallFailed("factory_destroy")] else [];
           raised == (if jobFails then Some(Raised(CallFailed("destroy"), alongside))
                      else if factoryFails then Some(Raised(CallFailed("factory_destroy"), [])) else None)
    {
      hide Valid, ChannelsValid, InputsValid, FiltersValid, WrappersValid, Held, WithoutJob, OnlyMine;
      ChildrenFacts();
      if h.None? { WithoutNothing(); }
      var first := DestroyJobOnce(okJob);
      var second := DestroyFactoryOnce(okFactory);
      GoneIsMine();
      match (first, second) {
        case (None, None) => return None;
        case (Some(e), None) => return Some(Raised(e, []));
        case (None, Some(e)) => return Some(Raised(e, []));
        case (Some(e), Some(f)) => return Some(Raised(e, [f]));
      }
    }
  }

  lemma {:induction false} JobAlone(live: map<Handle, Object>, f: Handle, j: Handle, next: Handle)
    requires forall h <- live :: h < next && (live[h].AFactory? || live[h].AJob? || live[h].job < next)
    requires next <= f && next <= j && f != j
    ensures var now := live[f := AFactory][j := AJob];
      WithoutJob(now, j) - {f} == live && JobLeft(live, now - {f}, next)
  {
    assert j !in live && f !in live;
    assert live[f := AFactory][j := AJob] - {f} == live[j := AJob];
  }

  lemma {:induction false} NewJobIsOwn(before: map<Handle, Object>, f: Handle, j: Handle, next: Handle)
    requires next <= f && next <= j && f != j && forall k <- before :: k < next
    ensures OnlyOf(before, before[f := AFactory][j := AJob], next, j, f)
  {
  }

  lemma {:induction false} OnlyThen(a: map<Handle, Object>, b: map<Handle, Object>, c: map<Handle, Object>,
                                    next: Handle, later: Handle, me: Handle, factory: Handle)
    requires OnlyOf(a, b, next, me, factory) && OnlyOf(b, c, later, me, factory) && next <= later
    ensures OnlyOf(a, c, next, me, factory)
  {
  }

  /** A job that no object holds. */
  ghost predicate JobLeft(before: map<Handle, Object>, after: map<Handle, Object>, next: Handle) {
    exists j: Handle :: j !in before && j in after && next <= j && after == before[j := AJob]
  }

  /** A job that is not handed out is destroyed, and the failure carries what that raised. */
  method Abandon(job: Job, failure: Failure, okDestroy: bool, okLast: bool) returns (e: Raised)
    requires job.Valid() && job.h.Some? && job.factory.Some?
    modifies job, job.c`live, job.channels, job.inputs, job.made
    ensures job.c.Sane()
    ensures job.c.live
         == (if okDestroy then WithoutJob(old(job.c.live), job.me) else old(job.c.live)) - {job.factoryMade}
    ensures e == Raised(failure, if !okDestroy then [CallFailed("destroy")]
                                 else if !okLast then [CallFailed("factory_destroy")]
                                 else [])
  {
    hide Job.Valid, WithoutJob, OnlyOf;
    var failed := job.Destroy(okDestroy, okLast);
    job.JobFacts();
    e := Raised(failure, if failed.Some? then [failed.value.failure] else []);
  }

  /** Job.create: every step may fail, and nothing is leaked unless C refuses to destroy the job. */
  method Create(c: Tapi, stdin: bool, okFactory: bool, okJob: bool, okStdin: bool, okDestroy: bool, okLast: bool)
    returns (r: Result<Job, Raised>)
    requires c.Sane()
    modifies c
    ensures c.Sane()
    ensures r.Ok? <==> okFactory && okJob && (stdin ==> okStdin)
    ensures r.Ok? ==> var job := r.value;
      fresh(job) && job.Valid() && job.c == c && job.h.Some? && job.factory.Some? && !job.started && job.filters == []
      && (job.input.Some? <==> stdin)
      && job.channels == {} && job.made == {} && job.wrappers == {} && (forall x <- job.inputs :: fresh(x))
      && OnlyOf(old(c.live), c.live, old(c.next), job.me, job.factoryMade)
      && old(c.next) <= job.me && old(c.next) <= job.factoryMade
    ensures old(c.next) <= c.next
    ensures r.Err? ==>
      if okFactory && okJob && !okDestroy then JobLeft(old(c.live), c.live, old(c.next))
      else c.live == old(c.live)
    ensures !okFactory ==> r == Err(Raised(CallFailed("factory_create"), []))
    ensures okFactory && !okJob ==> r == Err(Raised(CallFailed("create"), []))
    ensures okFactory && okJob && stdin && !okStdin ==>
      r.error == Raised(CallFailed("alloc_input_channels"),
                        if !okDestroy then [CallFailed("destroy")]
                        else if !okLast then [CallFailed("factory_destroy")]
                        else [])
  {
    hide Job.Valid, Job.ChannelsValid, Job.InputsValid, Job.FiltersValid, Job.WrappersValid, Job.Held, WithoutJob,
      OnlyOf, JobLeft;
    var f := c.NewFactory(okFactory);
    if !okFactory {
      return Err(Raised(CallFailed("factory_create"), []));
    }
    var j := c.NewJob(f, okJob);
    if !okJob {
      c.DestroyFactory(f);
      return Err(Raised(CallFailed("create"), []));
    }
    var job := new Job(c, f, j);
    ghost var mid, later := c.live, c.next;
    NewJobIsOwn(old(c.live), f, j, old(c.next));
    if stdin {
      var primary := job.Stdin(okStdin);
      if primary.Some? {
        JobAlone(old(c.live), f, j, old(c.next));
        var e := Abandon(job, primary.value.failure, okDestroy, okLast);
        return Err(e);
      }
      job.JobFacts();
      OnlyThen(old(c.live), mid, c.live, old(c.next), later, j, f);
    }
    return Ok(job);
  }

  /** receive_any, drain, read_many: every filter must still be usable, whatever jobs they are of. */
  method Receive(c: Tapi, fs: seq<Filter>, ok: bool) returns (raised: Outcome)
    requires forall f <- fs :: f.job.c == c && f.job.Valid() && f in f.job.made
    ensures raised.None? <==> fs != [] && ok && forall f <- fs :: f.h.Some?
  {
    if fs == [] {
      return Some(Raised(NoChannels, []));
    }
    var handles: seq<Handle> := [];
    for i := 0 to |fs|
      invariant (forall f <- fs[..i] :: f.h.Some?) && forall k <- handles :: k in c.live
    {
      fs[i].job.FilterFacts(fs[i]);
      if fs[i].h.None? {
        return Some(Raised(Closed, []));
      }
      handles := handles + [fs[i].h.value];
    }
    c.Use(handles);
    return if ok then None else Some(Raised(CallFailed("receive"), []));
  }

  /** What can be polled. */
  datatype Item = OutputItem(output: Channel) | InputItem(input: InputChannel) | FilterItem(filter: Filter) {
    function Of(): (job: Job) {
      match this case OutputItem(x) => x.job case InputItem(x) => x.job case FilterItem(f) => f.job
    }

    function Handle(): (h: Option<Handle>)
      reads if OutputItem? then {output} else {}
      reads if InputItem? then {input} else {}
      reads if FilterItem? then {filter} else {}
    {
      match this case OutputItem(x) => x.h case InputItem(x) => x.h case FilterItem(f) => f.h
    }

    ghost predicate HandedOut()
      reads Of()
    {
      match this case OutputItem(x) => x in x.job.channels case InputItem(x) => x in x.job.inputs
        case FilterItem(f) => f in f.job.made
    }

    lemma {:induction false} IsLive()
      requires Of().Valid() && HandedOut()
      ensures Handle().Some? ==> Handle().value in Of().c.live
    {
    }
  }

  /** poll: as for receive_any, over any channels and filters. */
  method Poll(c: Tapi, items: seq<Item>, ok: bool) returns (raised: Outcome)
    requires forall x <- items :: x.Of().c == c && x.Of().Valid() && x.HandedOut()
    ensures raised.None? <==> items != [] && ok && forall x <- items :: x.Handle().Some?
  {
    if items == [] {
      return Some(Raised(NoChannels, []));
    }
    var handles: seq<Handle> := [];
    for i := 0 to |items|
      invariant (forall x <- items[..i] :: x.Handle().Some?) && forall k <- handles :: k in c.live
    {
      items[i].IsLive();
      if items[i].Handle().None? {
        return Some(Raised(Closed, []));
      }
      handles := handles + [items[i].Handle().value];
    }
    c.Use(handles);
    return if ok then None else Some(Raised(CallFailed("poll"), []));
  }
}
