/** Whole tests over jobs: any operations, on any jobs, with any failures; and the launch of a tool. */
module JobRuns {
  import opened Common
  import opened JobControl
  import opened Jobs

  /** One operation of a test, on whatever objects it got so far, living or not. */
  datatype Op =
    | Creating(stdin: bool, okFactory: bool, okJob: bool, okStdin: bool, okDestroy: bool, okLast: bool)
    | OnJob(job: nat, call: JobOp)
    | Capturing(channel: nat, regex: bool, ok: bool, okRegex: bool)
    | Attaching(filter: nat, channel: nat, ok: bool)
    | Detaching(filter: nat, channel: nat, ok: bool)
    | Receiving(filters: seq<nat>, ok: bool)
    | ReadingAll(filter: nat, replies: seq<Reply>)
    | Polling(channels: seq<nat>, inputs: seq<nat>, filters: seq<nat>, ok: bool)
    | Sending(input: nat, ok: bool)
    | Unwrapping(wrapper: nat, ok: bool)

  datatype JobOp =
    | TouchOut(ok: bool)
    | TouchStdin(ok: bool)
    | Filtering(stdout: bool, stderr: bool, okOut: bool, regex: bool, ok: bool, okRegex: bool)
    | Wrapping(ok: bool)
    | Starting(ok: bool)
    | Restarting(okStop: bool, okStart: bool)
    | Calling(what: string, ok: bool)
    | Destroying(okJob: bool, okFactory: bool)

  /** Some jobs with all they handed out. */
  ghost function PartsOf(jobs: seq<Job>): set<object>
    reads jobs
  {
    (set j <- jobs :: j) + (set j <- jobs, x <- j.channels :: x) + (set j <- jobs, x <- j.inputs :: x)
    + (set j <- jobs, x <- j.made :: x) + (set j <- jobs, x <- j.wrappers :: x)
  }

  lemma {:induction false} OwnParts(jobs: seq<Job>, a: Job)
    requires a in jobs
    ensures a in PartsOf(jobs) && a.channels <= PartsOf(jobs) && a.inputs <= PartsOf(jobs) && a.made <= PartsOf(jobs)
  {
  }

  lemma {:induction false} PartsGrow(jobs: seq<Job>, job: Job)
    requires job.channels == {} && job.made == {} && job.wrappers == {}
    ensures forall x <- PartsOf(jobs + [job]) :: x in PartsOf(jobs) || x == job || x in job.inputs
  {
  }

  /** A test, its jobs and the objects it holds on to. */
  class Test {
    const c: Tapi
    var jobs: seq<Job>
    var channels: seq<Channel>
    var inputs: seq<InputChannel>
    var filters: seq<Filter>
    var wrappers: seq<Wrapper>

    ghost predicate Valid()
      reads this, c, jobs, PartsOf(jobs)
    {
      c.Sane() && JobsValid() && JobsApart() && Known()
    }

    ghost predicate JobsValid()
      reads this, c, jobs, PartsOf(jobs)
    {
      forall j <- jobs :: j.c == c && j.Valid()
    }

    ghost predicate JobsApart()
      reads this
    {
      forall a, b :: a in jobs && b in jobs && a != b ==> a.Apart(b)
    }

    /** What the test holds on to was handed out by its jobs. */
    ghost predicate Known()
      reads this, jobs
    {
      && (forall x <- channels :: x.job in jobs && x in x.job.channels)
      && (forall x <- inputs :: x.job in jobs && x in x.job.inputs)
      && (forall x <- filters :: x.job in jobs && x in x.job.made)
      && (forall x <- wrappers :: x.job in jobs && x in x.job.wrappers)
    }

    constructor (c: Tapi)
      requires c.Sane()
      ensures Valid() && this.c == c && jobs == [] && PartsOf(jobs) == {}
    {
      this.c, jobs, channels, inputs, filters, wrappers := c, [], [], [], [], [];
    }

    /** Jobs and objects only come into being. */
    twostate predicate Later()
      reads this, jobs
    {
      forall x <- PartsOf(jobs) :: x in old(PartsOf(jobs)) || fresh(x)
    }

    /** Jobs have no objects in common. */
    lemma {:induction false} NothingShared(a: Job)
      requires JobsValid() && a in jobs
      ensures a.c == c && a.Valid() && c.Sane()
      ensures forall b <- jobs :: b != a ==>
        b.channels !! a.channels && b.inputs !! a.inputs && b.made !! a.made && b.wrappers !! a.wrappers
    {
      hide Job.Valid;
      KnowsJob(a);
      forall b | b in jobs
        ensures b != a ==>
          b.channels !! a.channels && b.inputs !! a.inputs && b.made !! a.made && b.wrappers !! a.wrappers
      {
        KnowsJob(b);
      }
    }

    // ---- after a call on one job ----

    /** The other jobs' objects are as they were. */
    twostate predicate Spared(a: Job)
      reads this, c, jobs, PartsOf(jobs)
    {
      forall b <- old(jobs) :: b != a && b in jobs ==>
        b.factory == old(b.factory) && b.ChannelsSame() && b.InputsSame() && b.FiltersSame() && b.WrappersSame()
    }

    twostate predicate SameLists()
      reads this
    {
      jobs == old(jobs) && channels == old(channels) && inputs == old(inputs)
      && filters == old(filters) && wrappers == old(wrappers)
    }

    twostate lemma {:induction false} AfterOne(a: Job)
      requires old(Valid()) && a in jobs && SameLists() && a.Valid() && a.Evolves() && Spared(a)
      ensures Valid() && Later()
    {
      hide Job.Valid, Job.OnlyMine, Job.Apart;
      JobsStay(a);
      KnownStays(a);
      assert c.Sane() by { KnowsJob(a); }
    }

    twostate lemma {:induction false} KnownStays(a: Job)
      requires old(Known()) && a in jobs && SameLists() && a.HandsOut() && Spared(a)
      ensures Known() && Later()
    {
      hide Job.HandsOut, Spared, PartsOf;
      assert Known() by { ListsStayKnown(a); }
      PartsStay(a);
    }

    twostate lemma {:induction false} ListsStayKnown(a: Job)
      requires old(Known()) && a in jobs && SameLists() && a.HandsOut() && Spared(a)
      ensures Known()
    {
    }

    twostate lemma {:induction false} PartsStay(a: Job)
      requires a in jobs && jobs == old(jobs) && a.HandsOut() && Spared(a)
      ensures Later()
    {
    }

    twostate lemma {:induction false} JobsStay(a: Job)
      requires old(JobsValid() && JobsApart()) && a in jobs && SameLists() && a.Valid() && a.OnlyMine() && Spared(a)
      ensures JobsValid() && JobsApart()
    {
      hide Job.Valid, OnlyOf, Spares, AreJob;
      KnowsJob(a);
      KnewJob(a);
      forall b | b in jobs && b != a
        ensures b.Valid()
      {
        assert a.Apart(b);
        KnewJob(b);
        OnlyOfSpares(old(c.live), c.live, old(c.next), a.me, a.factoryMade, b.me, b.factoryMade);
        b.Stays();
      }
    }

    twostate lemma {:induction false} KnewJob(a: Job)
      requires old(a.Valid())
      ensures AreJob(old(a.c.live), a.me, a.factoryMade) && a.me < old(a.c.next) && a.factoryMade < old(a.c.next)
    {
    }

    method RunOn(a: Job, op: JobOp)
      requires Valid() && a in jobs
      modifies this, c, a, a.channels, a.inputs, a.made
      ensures Valid() && Later() && jobs == old(jobs)
    {
      hide Job.Valid, Job.OnlyMine, PartsOf, Job.Apart;
      NothingShared(a);
      var f, w := Operate(a, op);
      AfterOne(a);
      Hold(a, f, w);
    }

    // ---- the operations ----

    method Attach(f: Filter, ch: Channel, ok: bool)
      requires Valid() && f in filters && ch in channels
      modifies c, PartsOf(jobs)
      ensures Valid() && Later() && SameLists()
    {
      hide Job.Valid, Job.OnlyMine, PartsOf;
      NothingShared(f.job);
      NothingShared(ch.job);
      assert f.job != ch.job ==> f.job.Apart(ch.job);
      OwnParts(jobs, f.job);
      var _ := f.Attach(ch, ok);
      AfterOne(f.job);
    }

    method Detach(f: Filter, ch: Channel, ok: bool)
      requires Valid() && f in filters && ch in channels
      modifies c, PartsOf(jobs)
      ensures Valid() && Later() && SameLists()
    {
      hide Job.Valid, Job.OnlyMine, Job.Apart, PartsOf;
      NothingShared(f.job);
      NothingShared(ch.job);
      OwnParts(jobs, f.job);
      var _ := f.Detach(ch, ok);
      AfterOne(f.job);
    }

    method Capture(ch: Channel, regex: bool, ok: bool, okRegex: bool)
      requires Valid() && ch in channels
      modifies this, c, PartsOf(jobs)
      ensures Valid() && Later() && jobs == old(jobs)
    {
      hide Job.Valid, Job.OnlyMine, Job.Apart, PartsOf;
      var a := ch.job;
      NothingShared(a);
      OwnParts(jobs, a);
      var r := a.AttachFilter([ch], regex, ok, okRegex);
      AfterOne(a);
      Hold(a, if r.Ok? then Some(r.value) else None, None);
    }

    method Unwrap(w: Wrapper, ok: bool)
      requires Valid() && w in wrappers
      modifies c, PartsOf(jobs)
      ensures Valid() && Later() && SameLists()
    {
      hide Job.Valid, Job.OnlyMine, Job.Apart;
      NothingShared(w.job);
      var _ := w.Delete(ok);
      AfterOne(w.job);
    }

    /** Reading calls: they change nothing the test can see. */
    method Read(op: Op)
      requires Valid()
      ensures Valid()
    {
      hide Job.Valid, JobsApart, Complete, EosIn, DataOf;
      match op {
        case Receiving(fs, ok) => var _ := Receive(c, Picked(filters, fs), ok);
        case Polling(xs, ins, fs, ok) =>
          var _ := Poll(c, Items(Picked(channels, xs), Picked(inputs, ins), Picked(filters, fs)), ok);
        case ReadingAll(f, replies) => if f < |filters| { var _ := filters[f].ReadAll(replies); }
        case Sending(i, ok) => if i < |inputs| { var _ := inputs[i].Send(ok); }
        case _ =>
      }
    }

    twostate predicate Untouched()
      reads jobs, PartsOf(jobs)
      reads this
    {
      forall b <- old(jobs) :: b in jobs ==>
        b.factory == old(b.factory) && b.ChannelsSame() && b.InputsSame() && b.FiltersSame() && b.WrappersSame()
    }

    twostate lemma {:induction false} JobsAreSpared()
      requires old(Valid()) && c.Sane() && old(c.next) <= c.next && SameLists() && Untouched()
      requires forall b <- jobs :: Spares(old(c.live), c.live, old(c.next), b.me, b.factoryMade)
      ensures Valid()
    {
      hide Job.Valid, Job.Apart, Spares;
      forall b | b in jobs
        ensures b.Valid()
      {
        b.Stays();
      }
    }

    method Birth(stdin: bool, okFactory: bool, okJob: bool, okStdin: bool, okDestroy: bool, okLast: bool)
      returns (r: Result<Job, Raised>)
      requires Valid()
      modifies this, c
      ensures Valid() && Later()
      ensures r.Ok? <==> okFactory && okJob && (stdin ==> okStdin)
      ensures jobs == if r.Ok? then old(jobs) + [r.value] else old(jobs)
      ensures r.Ok? ==> fresh(r.value) && r.value.c == c && r.value.h.Some? && r.value in jobs
      ensures !okFactory ==> r == Err(Raised(CallFailed("factory_create"), []))
      ensures okFactory && !okJob ==> r == Err(Raised(CallFailed("create"), []))
      ensures !okFactory || !okJob ==> c.live == old(c.live)
    {
      hide Job.Valid, Job.Apart, Spares, OnlyOf, AreJob, PartsOf, JobLeft;
      ghost var before, next := c.live, c.next;
      forall b | b in jobs
        ensures b.me < next && b.factoryMade < next && AreJob(before, b.me, b.factoryMade)
      {
        KnowsJob(b);
      }
      r := Create(c, stdin, okFactory, okJob, okStdin, okDestroy, okLast);
      if r.Ok? { KnowsJob(r.value); }
      forall b | b in jobs
        ensures Spares(before, c.live, next, b.me, b.factoryMade) && (r.Ok? ==> b.Apart(r.value) && r.value.Apart(b))
      {
        if r.Ok? {
          BirthSpares(before, c.live, next, r.value, b);
        } else {
          LeftSpares(before, c.live, next, b);
        }
      }
      JobsAreSpared();
      if r.Ok? { Adopt(r.value); }
    }

    method Adopt(job: Job)
      requires Valid() && job.c == c && job.Valid() && forall b <- jobs :: b.Apart(job) && job.Apart(b)
      requires job.channels == {} && job.made == {} && job.wrappers == {}
      modifies this`jobs
      ensures Valid() && jobs == old(jobs) + [job]
      ensures forall x <- PartsOf(jobs) :: x in old(PartsOf(jobs)) || x == job || x in job.inputs
    {
      hide Job.Valid, Job.Apart, PartsOf;
      PartsGrow(jobs, job);
      jobs := jobs + [job];
    }

    method Step(op: Op)
      requires Valid()
      modifies this, c, PartsOf(jobs)
      ensures Valid() && Later() && old(jobs) <= jobs
    {
      hide Valid, Job.Valid;
      match op {
        case Creating(stdin, okFactory, okJob, okStdin, okDestroy, okLast) =>
          var _ := Birth(stdin, okFactory, okJob, okStdin, okDestroy, okLast);
        case OnJob(j, call) => 
          if j < |jobs| {
            OwnParts(jobs, jobs[j]);
            RunOn(jobs[j], call);
          }
        case Capturing(ch, regex, ok, okRegex) => if ch < |channels| { Capture(channels[ch], regex, ok, okRegex); }
        case Attaching(f, ch, ok) => if f < |filters| && ch < |channels| { Attach(filters[f], channels[ch], ok); }
        case Detaching(f, ch, ok) => if f < |filters| && ch < |channels| { Detach(filters[f], channels[ch], ok); }
        case Unwrapping(w, ok) => if w < |wrappers| { Unwrap(wrappers[w], ok); }
        case _ => Read(op);
      }
    }

    /** Over any sequence of operations on any jobs, with any failures: no call is made with a freed handle (every call
        demands live ones), and every object handed out holds a handle exactly while it is live. */
    method Play(ops: seq<Op>)
      requires Valid()
      modifies this, c, PartsOf(jobs)
      ensures Valid() && Later() && old(jobs) <= jobs
    {
      hide Valid, PartsOf;
      for i := 0 to |ops|
        invariant Valid() && Later() && old(jobs) <= jobs
      {
        Step(ops[i]);
      }
    }

    /** launch of tools/_tool.py: whatever setup does, and to whatever jobs, a job that is not handed out is
        destroyed. */
    method Launch(okFactory: bool, okJob: bool, setup: seq<Op>, setupRaises: bool, okStart: bool, okDestroy: bool,
                  okLast: bool)
      returns (r: Result<Job, Raised>, ghost made: Option<Job>)
      requires Valid()
      modifies this, c, PartsOf(jobs)
      ensures Valid() && Later()
      ensures made.Some? <==> okFactory && okJob
      ensures made.None? ==> r == Err(Raised(CallFailed(if okFactory then "create" else "factory_create"), []))
      ensures made.None? ==> c.live == old(c.live) && jobs == old(jobs)
      ensures made.Some? ==> fresh(made.value) && made.value.c == c && made.value.Valid()
      ensures r.Ok? ==> made == Some(r.value) && r.value.started && r.value.h.Some? && !setupRaises && okStart
      ensures made.Some? && r.Err? ==> Refused(made.value, r.error, setupRaises, okStart, okDestroy, okLast)
    {
      hide Valid, PartsOf, JobLeft;
      made := None;
      var job :- Birth(false, okFactory, okJob, true, true, true);
      made := Some(job);
      Play(setup);
      var raised := StartOr(job, setupRaises, okStart, okDestroy, okLast);
      HandedOut(job);
      if raised.Some? {
        return Err(raised.value), Some(job);
      }
      return Ok(job), Some(job);
    }

    method StartOr(job: Job, setupRaises: bool, okStart: bool, okDestroy: bool, okLast: bool) returns (raised: Outcome)
      requires Valid() && job in jobs
      modifies c, PartsOf(jobs)
      ensures Valid() && Later() && SameLists()
      ensures raised.None? ==> !setupRaises && okStart && job.started && job.h.Some?
      ensures raised.Some? ==> Refused(job, raised.value, setupRaises, okStart, okDestroy, okLast)
    {
      hide Job.Valid, Job.OnlyMine, PartsOf, Refused;
      NothingShared(job);
      OwnParts(jobs, job);
      raised := StartOrDestroy(job, setupRaises, okStart, okDestroy, okLast);
      AfterOne(job);
    }

    // ---- what a test holds on to ----

    /** Takes note of what a job handed out. */
    method Hold(a: Job, f: Option<Filter>, w: Option<Wrapper>)
      requires Valid() && a in jobs
      requires (f.Some? ==> f.value in a.made) && (w.Some? ==> w.value in a.wrappers)
      modifies this
      ensures Valid() && jobs == old(jobs)
    {
      hide Valid, PartsOf;
      var fs := if f.Some? then [f.value] else [];
      var ws := if w.Some? then [w.value] else [];
      var xs := if a.input.Some? then [a.input.value] else [];
      var cs := if a.out.Some? then [a.out.value.0, a.out.value.1] else [];
      HandedOut(a);
      HoldAll(a, cs, xs, fs, ws);
    }

    method HoldAll(a: Job, cs: seq<Channel>, xs: seq<InputChannel>, fs: seq<Filter>, ws: seq<Wrapper>)
      requires Valid() && a in jobs
      requires (forall x <- cs :: x in a.channels) && (forall x <- xs :: x in a.inputs)
      requires (forall x <- fs :: x in a.made) && (forall x <- ws :: x in a.wrappers)
      modifies this
      ensures Valid() && jobs == old(jobs)
    {
      hide Job.Valid, Job.Apart;
      NothingShared(a);
      KnowsJob(a);
      channels, inputs, filters, wrappers := channels + cs, inputs + xs, filters + fs, wrappers + ws;
    }

    lemma {:induction false} HandedOut(a: Job)
      requires Valid() && a in jobs
      ensures a.Valid()
      ensures a.out.Some? ==> a.out.value.0 in a.channels && a.out.value.1 in a.channels
      ensures a.input.Some? ==> a.input.value in a.inputs
    {
      hide Job.Valid;
      NothingShared(a);
      OutsAreChannels(a);
    }
  }

  /** What a new job's birth spares. */
  lemma {:induction false} BirthSpares(before: map<Handle, Object>, after: map<Handle, Object>, next: Handle, job: Job,
                                       b: Job)
    requires OnlyOf(before, after, next, job.me, job.factoryMade) && AreJob(after, job.me, job.factoryMade)
    requires (forall k <- before :: k < next) && AreJob(before, b.me, b.factoryMade) && b.me < next
      && b.factoryMade < next
    requires next <= job.me && next <= job.factoryMade
    ensures Spares(before, after, next, b.me, b.factoryMade) && b.Apart(job) && job.Apart(b)
  {
    OnlyOfSpares(before, after, next, job.me, job.factoryMade, b.me, b.factoryMade);
  }

  lemma {:induction false} LeftSpares(before: map<Handle, Object>, after: map<Handle, Object>, next: Handle, b: Job)
    requires (after == before || JobLeft(before, after, next)) && b.me < next && b.factoryMade < next
    ensures Spares(before, after, next, b.me, b.factoryMade)
  {
  }

  /** The objects with these numbers. */
  function Picked<T>(xs: seq<T>, ks: seq<nat>): (r: seq<T>)
    ensures forall x <- r :: x in xs
  {
    if ks == [] then []
    else (if ks[0] < |xs| then [xs[ks[0]]] else []) + Picked(xs, ks[1..])
  }

  function Items(xs: seq<Channel>, ins: seq<InputChannel>, fs: seq<Filter>): (r: seq<Item>)
    ensures forall x <- r ::
      match x case OutputItem(x) => x in xs case InputItem(x) => x in ins case FilterItem(f) => f in fs
  {
    seq(|xs|, i requires 0 <= i < |xs| => OutputItem(xs[i]))
      + seq(|ins|, i requires 0 <= i < |ins| => InputItem(ins[i]))
    + seq(|fs|, i requires 0 <= i < |fs| => FilterItem(fs[i]))
  }

  /** An operation on one job. */
  method Operate(job: Job, op: JobOp) returns (f: Option<Filter>, w: Option<Wrapper>)
    requires job.Valid()
    modifies job, job.c, job.channels, job.inputs, job.made
    ensures job.Valid() && job.Evolves()
    ensures f.Some? ==> f.value.job == job && f.value in job.made
    ensures w.Some? ==> w.value.job == job && w.value in job.wrappers
  {
    hide job.Valid, job.Grown, job.AllDead, job.Untouched, job.OnlyMine;
    job.NothingEvolves();
    f, w := None, None;
    match op {
      case TouchOut(ok) => var _ := job.AllocOut(ok);
      case TouchStdin(ok) => var _ := job.Stdin(ok);
      case Filtering(stdout, stderr, okOut, regex, ok, okRegex) =>
        f := Filtered(job, stdout, stderr, okOut, regex, ok, okRegex);
      case Wrapping(ok) =>
        var r := job.Wrap(ok);
        if r.Ok? { w := Some(r.value); }
      case Starting(ok) => var _ := job.Start(ok);
      case Restarting(okStop, okStart) => var _ := job.Restart(okStop, okStart);
      case Calling(what, ok) => var _ := job.Call(what, ok);
      case Destroying(okJob, okFactory) => var _ := job.Destroy(okJob, okFactory);
    }
  }

  /** Job.filter: the output channels come into being with their first use. */
  method Filtered(job: Job, stdout: bool, stderr: bool, okOut: bool, regex: bool, ok: bool, okRegex: bool)
    returns (f: Option<Filter>)
    requires job.Valid()
    modifies job`out, job`channels, job`filters, job`made, job.c
    ensures job.Valid() && job.Evolves()
    ensures f.Some? ==> f.value.job == job && f.value in job.made
  {
    hide job.Valid, job.Grown, OnlyOf;
    ghost var before, next := job.c.live, job.c.next;
    job.NothingEvolves();
    if !stdout && !stderr {
      return None;
    }
    var raised := job.AllocOut(okOut);
    if raised.Some? {
      return None;
    }
    ghost var mid, later := job.c.live, job.c.next;
    OutsAreChannels(job);
    var chans := if stdout then [job.out.value.0] else [];
    if stderr { chans := chans + [job.out.value.1]; }
    var r := job.AttachFilter(chans, regex, ok, okRegex);
    OnlyThen(before, mid, job.c.live, next, later, job.me, job.factoryMade);
    return if r.Ok? then Some(r.value) else None;
  }

  /** A launch that failed: what it raises, what that carries, and what is left of the job. */
  ghost predicate Refused(job: Job, e: Raised, setupRaises: bool, okStart: bool, okDestroy: bool, okLast: bool)
    reads job, job.c, job.channels, job.inputs, job.made
  {
    && job.factory.None?
    && (if setupRaises then e.failure == SetupRaised
      else e.failure == Closed || (!okStart && e.failure == CallFailed("start")))
    && (if job.h.Some? then !okDestroy && e.cleanupErrors == [CallFailed("destroy")]
        else
          job.AllDead() && job.NothingLeft()
          && (e.cleanupErrors == [] || (!okLast && e.cleanupErrors == [CallFailed("factory_destroy")])))
  }

  /** The end of launch: exactly what it raises and what it leaves, by what setup left of the job. */
  method StartOrDestroy(job: Job, setupRaises: bool, okStart: bool, okDestroy: bool, okLast: bool)
    returns (raised: Outcome)
    requires job.Valid()
    modifies job, job.c`live, job.channels, job.inputs, job.made
    ensures job.Valid() && job.Evolves()
    ensures raised.None? <==> !setupRaises && old(job.h).Some? && okStart
    ensures raised.None? ==> job.started && job.h.Some?
    ensures raised.Some? ==> Refused(job, raised.value, setupRaises, okStart, okDestroy, okLast)
    ensures raised.Some? ==> (job.h.Some? <==> old(job.h).Some? && !okDestroy)
    ensures raised.Some? && job.h.None? ==>
      raised.value.cleanupErrors == if old(job.factory).Some? && !okLast then [CallFailed("factory_destroy")] else []
  {
    hide Job.Valid, OnlyOf, Job.NothingLeft, WithoutJob;
    raised := Some(Raised(SetupRaised, []));
    if !setupRaises {
      raised := job.Start(okStart);
    }
    if raised.None? {
      job.NothingEvolves();
      return;
    }
    var failed := job.Destroy(okDestroy, okLast);
    DeadLeavesNothing(job);
    return Some(Raised(raised.value.failure, if failed.Some? then [failed.value.failure] else []));
  }

  lemma {:induction false} DeadLeavesNothing(job: Job)
    requires job.Valid()
    ensures job.h.None? ==> job.AllDead() && job.NothingLeft()
  {
  }

  lemma {:induction false} OutsAreChannels(job: Job)
    requires job.Valid()
    ensures job.out.Some? ==>
      job.out.value.0 in job.channels && job.out.value.1 in job.channels && job.out.value.0 != job.out.value.1
    ensures job.input.Some? ==> job.input.value in job.inputs
  {
  }

  /** What a job handed out knows its job. */
  lemma {:induction false} KnowsJob(job: Job)
    requires job.Valid()
    ensures (forall x <- job.channels :: x.job == job) && (forall x <- job.inputs :: x.job == job)
    ensures (forall x <- job.made :: x.job == job) && (forall x <- job.wrappers :: x.job == job)
    ensures job.c.Sane() && AreJob(job.c.live, job.me, job.factoryMade)
    ensures job.me < job.c.next && job.factoryMade < job.c.next
  {
  }
}
