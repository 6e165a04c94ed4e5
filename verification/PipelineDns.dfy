/** What the resolver's guarantees mean for tasks: DNS, cache, random choice and loop taken together. */
module PipelineDns {
  import opened Names
  import opened CrawlContext
  import opened Pipeline
  import Resolver
  import EventServer

  /** A stored success has addresses, all of which a successful reply for that name gave. */
  ghost predicate SourcedEntry(info: Resolver.Info<CrawlContext>, n: Host, found: set<(Host, Ip)>) {
    info.phase == Resolver.Done && info.status == Ok ==> info.addrs != [] && forall a | a in info.addrs :: (n, a) in found
  }

  ghost predicate Sourced(s: State) {
    forall n | n in s.dns.infos :: SourcedEntry(s.dns.infos[n], n, s.found)
  }

  function PastDns(s: State, c: CrawlContext): nat {
    InLoop(s, c) + multiset(s.tasks)[c] + multiset(s.reported)[c]
  }

  ghost predicate Addressed(s: State, c: CrawlContext) {
    PastDns(s, c) > 0 ==> c in s.ips && (c.host, s.ips[c]) in s.found
  }

  lemma StepSourced(s: State, e: Event)
    requires Enabled(s, e) && Sourced(s)
    ensures Sourced(Step(s, e))
  {
    match e {
      case AddNext(now, draws) =>
        var ctx := s.arriving[0];
        var o := Resolver.CallStep(s.dns, ctx.host, ctx, now);
        DispatchFrame(s.(arriving := s.arriving[1..], dns := o.state, clock := now), o.out, draws);
      case DnsReply(name, reply, now, draws) =>
        var o := Resolver.AnswerStep(s.dns, name, reply, now);
        DispatchFrame(s.(dns := o.state, clock := now, found := s.found + Found(name, reply)), o.out, draws);
      case _ =>
        assert Step(s, e).dns.infos == s.dns.infos && Step(s, e).found == s.found;
    }
  }

  lemma AddAddressed(s: State, now: int, draws: seq<nat>, c: CrawlContext)
    requires s.arriving != [] && Sourced(s) && Addressed(s, c)
    ensures Addressed(AddStep(s, now, draws), c)
  {
    var ctx := s.arriving[0];
    var o := Resolver.CallStep(s.dns, ctx.host, ctx, now);
    var s0 := s.(arriving := s.arriving[1..], dns := o.state, clock := now);
    CallOutcome(s.dns, ctx, now);
    if o.out == [] {
      assert AddStep(s, now, draws) == s0;
      assert PastDns(s0, c) == PastDns(s, c);
    } else {
      assert o.out == [o.out[0]];
      DispatchOne(s0, o.out[0], draws);
      var d := o.out[0];
      assert d.status == Ok ==> d.addrs != [] && forall a | a in d.addrs :: (ctx.host, a) in s.found;
      ImmediateAddressed(s, s0, d, draws, c);
    }
  }

  lemma ImmediateAddressed(s: State, s0: State, d: Delivery<CrawlContext>, draws: seq<nat>, c: CrawlContext)
    requires s0 == s.(arriving := s0.arriving, dns := s0.dns, clock := s0.clock)
    requires Addressed(s, c)
    requires d.status == Ok ==> d.addrs != [] && forall a | a in d.addrs :: (d.cb.host, a) in s.found
    ensures Addressed(OnResolved(s0, d, draws, 0), c)
  {
    CountConcat(s.es.queue, [Start(d.cb)], Start(c));
  }

  lemma ReplyAddressed(s: State, name: Host, reply: Resolver.Reply, now: int, draws: seq<nat>, c: CrawlContext)
    requires Enabled(s, DnsReply(name, reply, now, draws)) && WellFormed(s) && Addressed(s, c)
    ensures Addressed(ReplyStep(s, name, reply, now, draws), c)
  {
    var cbs: seq<CrawlContext> := Resolver.Lookup(s.dns, name).cbs;
    var info := Resolver.Answered(Resolver.Lookup(s.dns, name), reply, now);
    var o := Resolver.AnswerStep(s.dns, name, reply, now);
    var s0 := s.(dns := o.state, clock := now, found := s.found + Found(name, reply));
    assert forall x | x in cbs :: x.host == name;
    assert info.status == Ok ==> info.addrs != [] && forall a | a in info.addrs :: (name, a) in s0.found;
    DispatchAddressed(s0, cbs, name, info.addrs, info.status, draws, c);
  }

  lemma DispatchAddressed(s: State, cbs: seq<CrawlContext>, n: Host, addrs: seq<Ip>, st: Status, draws: seq<nat>, c: CrawlContext)
    requires Addressed(s, c) && forall x | x in cbs :: x.host == n
    requires st == Ok ==> addrs != [] && forall a | a in addrs :: (n, a) in s.found
    ensures Addressed(Dispatch(s, Deliver(cbs, n, addrs, st), draws), c)
  {
    if st == Ok {
      DispatchSuccess(s, cbs, n, addrs, draws);
      DispatchPicks(s, cbs, n, addrs, draws, c);
      CountStarts(cbs, c);
      CountConcat(s.es.queue, Starts(cbs), Start(c));
    } else {
      DispatchFailure(s, cbs, n, addrs, st, draws);
    }
  }

  lemma RunAddressed(s: State, c: CrawlContext)
    requires Enabled(s, RunNext) && Addressed(s, c)
    ensures Addressed(Step(s, RunNext), c)
  {
    RunPastDns(s, c);
    assert Step(s, RunNext).ips == s.ips && Step(s, RunNext).found == s.found;
  }

  lemma RunPastDns(s: State, c: CrawlContext)
    requires Enabled(s, RunNext)
    ensures PastDns(Step(s, RunNext), c) == PastDns(s, c)
  {
    match s.es.batch[0] {
      case Start(ctx) =>
        StartCounts(s, ctx, c);
      case Report =>
        PollCounts(s, c);
        ReportPastDns(s.(es := Step(s, RunNext).es), c);
    }
  }

  lemma ReportPastDns(s: State, c: CrawlContext)
    ensures PastDns(ReportStep(s), c) == PastDns(s, c)
  {
    CountThose(s.tasks, s.done, c);
    CountReverse(Those(s.tasks, s.done));
    CountReverse(Others(s.tasks, s.done));
    CountConcat(s.reported, Reverse(Those(s.tasks, s.done)), c);
  }

  lemma LoopAddressed(s: State, e: Event, c: CrawlContext)
    requires Enabled(s, e) && Addressed(s, c) && WellFormed(s)
    requires e.Poll? || e.Fire? || e.Swap? || e.DnsDrain? || e.Admit? || e.Complete?
    ensures Addressed(Step(s, e), c)
  {
    if e.Admit? || e.Complete? {
      assert Step(s, e).es == s.es;
    } else {
      LoopKeeps(s, e, c);
    }
    assert InLoop(Step(s, e), c) == InLoop(s, c);
    assert Step(s, e).ips == s.ips && Step(s, e).found == s.found;
  }

  lemma {:induction false} AddressedAlways(run: seq<Event>, c: CrawlContext)
    requires Legal(run)
    ensures Sourced(After(run)) && Addressed(After(run), c)
  {
    if run != [] {
      var s := After(Front(run));
      AddressedAlways(Front(run), c);
      WellFormedAlways(Front(run));
      StepSourced(s, Last(run));
      match Last(run) {
        case AddNext(now, draws) => AddAddressed(s, now, draws, c);
        case DnsReply(name, reply, now, draws) => ReplyAddressed(s, name, reply, now, draws, c);
        case RunNext => RunAddressed(s, c);
        case _ => LoopAddressed(s, Last(run), c);
      }
    }
  }

  /** Every task whose transfer was started uses an address that a successful DNS reply gave for its own host. */
  lemma TransfersUseTheirHostsAddress(run: seq<Event>, c: CrawlContext)
    requires Legal(run) && (c in After(run).tasks || c in After(run).reported)
    ensures c in After(run).ips && (c.host, After(run).ips[c]) in After(run).found
  {
    AddressedAlways(run, c);
  }

  // ---------- The resolver inside the pipeline ----------

  /** The resolver's part of a step. */
  function DnsEvent(s: State, e: Event): Option<Resolver.Event<CrawlContext>>
    requires Enabled(s, e)
  {
    match e
    case AddNext(now, _) => Some(Resolver.Call(s.arriving[0].host, s.arriving[0], now))
    case DnsDrain => Some(Resolver.Event<CrawlContext>.Drain)
    case DnsReply(name, reply, now, _) => Some(Resolver.Event<CrawlContext>.Answer(name, reply, now))
    case _ => None
  }

  /** And of a run of the server. */
  ghost function DnsRun(run: seq<Event>): seq<Resolver.Event<CrawlContext>>
    requires Legal(run)
  {
    if run == [] then []
    else match DnsEvent(After(Front(run)), Last(run))
      case Some(d) => DnsRun(Front(run)) + [d]
      case None => DnsRun(Front(run))
  }

  /** The clock after an event of the resolver. */
  function Time(d: Resolver.Event<CrawlContext>, clock: int): int {
    if d.Drain? then clock else d.now
  }

  lemma DnsStep(s: State, e: Event)
    requires Enabled(s, e)
    ensures var t, d := Step(s, e), DnsEvent(s, e);
            if d.Some? then t.dns == Resolver.Step(s.dns, d.value).state && t.clock == Time(d.value, s.clock) >= s.clock
            else t.dns == s.dns && t.clock == s.clock
  {
    match e {
      case AddNext(now, draws) =>
        var ctx := s.arriving[0];
        var o := Resolver.CallStep(s.dns, ctx.host, ctx, now);
        DispatchFrame(s.(arriving := s.arriving[1..], dns := o.state, clock := now), o.out, draws);
      case DnsReply(name, reply, now, draws) =>
        var o := Resolver.AnswerStep(s.dns, name, reply, now);
        DispatchFrame(s.(dns := o.state, clock := now, found := s.found + Found(name, reply)), o.out, draws);
      case _ =>
    }
  }

  lemma ExtendDns(r: seq<Resolver.Event<CrawlContext>>, d: Resolver.Event<CrawlContext>)
    requires Resolver.Legal(r) && Time(d, Resolver.Clock(r)) >= Resolver.Clock(r)
    requires d.Answer? ==> d.name in Resolver.After(r).inflight
    ensures Resolver.Legal(r + [d]) && Resolver.After(r + [d]) == Resolver.Step(Resolver.After(r), d).state
    ensures Resolver.Clock(r + [d]) == Time(d, Resolver.Clock(r))
  {
    assert Front(r + [d]) == r;
  }

  /** The server drives the resolver only through legal runs, so all that is proved of the resolver holds in it. */
  lemma {:induction false} ResolverRunsLegally(run: seq<Event>)
    requires Legal(run)
    ensures Resolver.Legal(DnsRun(run))
    ensures Resolver.After(DnsRun(run)) == After(run).dns
    ensures Resolver.Clock(DnsRun(run)) == After(run).clock
  {
    if run != [] {
      var s, e := After(Front(run)), Last(run);
      ResolverRunsLegally(Front(run));
      DnsStep(s, e);
      if DnsEvent(s, e).Some? {
        ExtendDns(DnsRun(Front(run)), DnsEvent(s, e).value);
      }
    }
  }

  /** add() never drops a task: a cached answer is a success, and its address belongs to the latest, unexpired, reply. */
  lemma CachedTasksStart(run: seq<Event>, now: int, draws: seq<nat>)
    requires Legal(run) && Enabled(After(run), AddNext(now, draws))
    ensures var s, t := After(run), Step(After(run), AddNext(now, draws));
            var ctx := s.arriving[0];
            && t.dropped == s.dropped && t.done == s.done
            && (if Resolver.Cacheable(DnsRun(run), ctx.host, now)
                then t.es.queue == s.es.queue + [Start(ctx)] && ctx in t.ips
                     && t.ips[ctx] in Resolver.LastReply(DnsRun(run), ctx.host).value.reply.addrs
                else t.es == s.es && t.ips == s.ips)
  {
    var s := After(run);
    var ctx := s.arriving[0];
    var o := Resolver.CallStep(s.dns, ctx.host, ctx, now);
    var s0 := s.(arriving := s.arriving[1..], dns := o.state, clock := now);
    ResolverRunsLegally(run);
    Resolver.CacheServesExactlyFreshSuccesses(DnsRun(run), ctx.host, ctx, now);
    if o.out != [] {
      DispatchOne(s0, o.out[0], draws);
      AddressedAlways(run, ctx);
    }
  }

  // ---------- Which tasks are dropped ----------

  /** A failed reply for the task's host comes while the task waits in the resolver. */
  predicate FailsWaiting(s: State, e: Event, c: CrawlContext) {
    e.DnsReply? && e.name == c.host && e.reply.Failed? && Waiting(s, c) > 0
  }

  ghost predicate LookupFailed(run: seq<Event>, c: CrawlContext)
    requires Legal(run)
  {
    run != [] && (LookupFailed(Front(run), c) || FailsWaiting(After(Front(run)), Last(run), c))
  }

  lemma ReplyDropped(s: State, name: Host, reply: Resolver.Reply, now: int, draws: seq<nat>, c: CrawlContext)
    requires WellFormed(s)
    ensures c in ReplyStep(s, name, reply, now, draws).dropped <==>
            c in s.dropped || FailsWaiting(s, DnsReply(name, reply, now, draws), c)
  {
    var cbs: seq<CrawlContext> := Resolver.Lookup(s.dns, name).cbs;
    var info := Resolver.Answered(Resolver.Lookup(s.dns, name), reply, now);
    var o := Resolver.AnswerStep(s.dns, name, reply, now);
    var s0 := s.(dns := o.state, clock := now, found := s.found + Found(name, reply));
    assert c in cbs <==> c.host == name && Waiting(s, c) > 0;
    if reply.Found? {
      DispatchSuccess(s0, cbs, name, info.addrs, draws);
    } else {
      DispatchFailure(s0, cbs, name, info.addrs, info.status, draws);
    }
  }

  /** A task is dropped exactly when its lookup failed: a failed reply for its host came while it waited. */
  lemma {:induction false} DroppedIffLookupFailed(run: seq<Event>, c: CrawlContext)
    requires Legal(run)
    ensures c in After(run).dropped <==> LookupFailed(run, c)
  {
    if run != [] {
      DroppedIffLookupFailed(Front(run), c);
      WellFormedAlways(Front(run));
      match Last(run) {
        case AddNext(now, draws) => CachedTasksStart(Front(run), now, draws);
        case DnsReply(name, reply, now, draws) => ReplyDropped(After(Front(run)), name, reply, now, draws, c);
        case _ =>
      }
    }
  }
}
