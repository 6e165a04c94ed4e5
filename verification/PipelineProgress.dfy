/**
 Progress of the task pipeline once clients stop creating tasks, while they go on polling as they like: the steps
 that the server takes are bounded, every step that moves a task brings it closer to its end, and a task is never stuck.
 */
module PipelineProgress {
  import opened Names
  import opened CrawlContext
  import opened Pipeline
  import Resolver
  import EventServer

  /** Everything but the clients' requests. */
  predicate Internal(e: Event) {
    !e.Admit? && !e.Poll?
  }

  /** How far a task is from its end, summed over the places it may be in. */
  function Distance(s: State, c: CrawlContext): nat {
    10 * multiset(s.arriving)[c] + 7 * Waiting(s, c) +
    4 * multiset(s.es.queue)[Start(c)] + 3 * multiset(s.es.batch)[Start(c)] +
    (if c in s.done then 1 else 2) * multiset(s.tasks)[c]
  }

  function Total(s: State, cs: seq<CrawlContext>): nat {
    if cs == [] then 0 else Total(s, Front(cs)) + Distance(s, Last(cs))
  }

  /** What is left to do besides moving tasks: DNS requests to send, polls to answer, wake-ups to serve. */
  function Overhead(s: State): nat {
    |s.dns.tasks| + 2 * multiset(s.es.queue)[Report] + multiset(s.es.batch)[Report] +
    (if s.es.active then 2 else 0) + (if s.es.draining then 1 else 0)
  }

  function Measure(s: State): nat {
    Total(s, s.created) + Overhead(s)
  }

  // ---------- Sums ----------

  lemma {:induction false} TotalSame(s: State, t: State, cs: seq<CrawlContext>)
    requires forall c | c in cs :: Distance(t, c) == Distance(s, c)
    ensures Total(t, cs) == Total(s, cs)
  {
    if cs != [] {
      TotalSame(s, t, Front(cs));
    }
  }

  lemma {:induction false} TotalZero(s: State, cs: seq<CrawlContext>)
    ensures Total(s, cs) == 0 <==> forall c | c in cs :: Distance(s, c) == 0
  {
    if cs != [] {
      TotalZero(s, Front(cs));
      assert cs == Front(cs) + [Last(cs)];
    }
  }

  lemma {:induction false} TotalLe(s: State, t: State, cs: seq<CrawlContext>)
    requires forall c | c in cs :: Distance(t, c) <= Distance(s, c)
    ensures Total(t, cs) <= Total(s, cs)
  {
    if cs != [] {
      TotalLe(s, t, Front(cs));
    }
  }

  lemma {:induction false} TotalDrops(s: State, t: State, cs: seq<CrawlContext>, c0: CrawlContext, d: nat)
    requires forall c | c in cs :: Distance(t, c) <= Distance(s, c)
    requires c0 in cs && Distance(t, c0) + d <= Distance(s, c0)
    ensures Total(t, cs) + d <= Total(s, cs)
  {
    if Last(cs) == c0 {
      TotalLe(s, t, Front(cs));
    } else {
      TotalDrops(s, t, Front(cs), c0, d);
    }
  }

  // ---------- Each step, for one task ----------

  /** A task that leaves the arrivals gets closer by more than the work it leaves behind. */
  lemma AddDistance(s: State, now: int, draws: seq<nat>, c: CrawlContext)
    requires s.arriving != []
    ensures var t := AddStep(s, now, draws);
            && t.created == s.created
            && Overhead(t) <= Overhead(s) + 2
            && Distance(t, c) + (if c == s.arriving[0] then 3 else 0) <= Distance(s, c)
  {
    var ctx := s.arriving[0];
    var o := Resolver.CallStep(s.dns, ctx.host, ctx, now);
    CallOutcome(s.dns, ctx, now);
    CountHead(s.arriving);
    var s0 := s.(arriving := s.arriving[1..], dns := o.state, clock := now);
    if o.out == [] {
      CountConcat(Resolver.Lookup(s.dns, ctx.host).cbs, [ctx], c);
      assert AddStep(s, now, draws) == s0;
      WaitDistance(s, s0, ctx, c);
    } else {
      assert Waiting(s0, c) == Waiting(s, c);
      assert o.out == [o.out[0]];
      DispatchOne(s0, o.out[0], draws);
      ImmediateDistance(s, s0, o.out[0], draws, c);
    }
  }

  lemma WaitDistance(s: State, s0: State, ctx: CrawlContext, c: CrawlContext)
    requires s0 == s.(arriving := s0.arriving, dns := s0.dns, clock := s0.clock)
    requires multiset(s.arriving) == multiset{ctx} + multiset(s0.arriving) && |s0.dns.tasks| <= |s.dns.tasks| + 1
    requires Waiting(s0, c) == Waiting(s, c) + if c == ctx then 1 else 0
    ensures Overhead(s0) <= Overhead(s) + 2 && Distance(s0, c) + (if c == ctx then 3 else 0) <= Distance(s, c)
  {
  }

  lemma ImmediateDistance(s: State, s0: State, d: Delivery<CrawlContext>, draws: seq<nat>, c: CrawlContext)
    requires Waiting(s0, c) == Waiting(s, c) && s0.dns.tasks == s.dns.tasks
    requires s0 == s.(arriving := s0.arriving, dns := s0.dns, clock := s0.clock)
    requires multiset(s.arriving) == multiset{d.cb} + multiset(s0.arriving)
    ensures var t := OnResolved(s0, d, draws, 0);
            && Overhead(t) <= Overhead(s) + 2
            && Distance(t, c) + (if c == d.cb then 3 else 0) <= Distance(s, c)
  {
    var t := OnResolved(s0, d, draws, 0);
    assert Waiting(t, c) == Waiting(s0, c);
    if d.status == Ok {
      CountSnoc(s.es.queue, Start(d.cb), Start(c));
      CountSnoc(s.es.queue, Start(d.cb), Report);
      assert t.es == EventServer.AddStep(s.es, Start(d.cb)) && t.done == s.done;
    } else {
      assert t.es == s.es && t.done == s.done + {d.cb};
    }
  }

  lemma ReplyDistance(s: State, name: Host, reply: Resolver.Reply, now: int, draws: seq<nat>, c: CrawlContext)
    requires WellFormed(s)
    ensures var t := ReplyStep(s, name, reply, now, draws);
            && t.created == s.created
            && Overhead(t) <= Overhead(s) + 2
            && Distance(t, c) + 3 * multiset(Resolver.Lookup(s.dns, name).cbs)[c] <= Distance(s, c)
  {
    var cbs: seq<CrawlContext> := Resolver.Lookup(s.dns, name).cbs;
    var info := Resolver.Answered(Resolver.Lookup(s.dns, name), reply, now);
    var o := Resolver.AnswerStep(s.dns, name, reply, now);
    ReplyWaiting(s, name, reply, now, c);
    DispatchDistance(s, s.(dns := o.state, clock := now, found := s.found + Found(name, reply)),
                     cbs, name, info.addrs, info.status, draws, c);
  }

  lemma DispatchDistance(s: State, s0: State, cbs: seq<CrawlContext>, n: Host, addrs: seq<Ip>, st: Status, draws: seq<nat>, c: CrawlContext)
    requires Waiting(s0, c) + multiset(cbs)[c] == Waiting(s, c) && s0.dns.tasks == s.dns.tasks
    requires s0 == s.(dns := s0.dns, clock := s0.clock, found := s0.found)
    ensures var t := Dispatch(s0, Deliver(cbs, n, addrs, st), draws);
            && t.created == s.created
            && Overhead(t) <= Overhead(s) + 2
            && Distance(t, c) + 3 * multiset(cbs)[c] <= Distance(s, c)
  {
    if st == Ok {
      DispatchSuccess(s0, cbs, n, addrs, draws);
      CountStarts(cbs, c);
      CountConcat(s.es.queue, Starts(cbs), Start(c));
      CountConcat(s.es.queue, Starts(cbs), Report);
    } else {
      DispatchFailure(s0, cbs, n, addrs, st, draws);
    }
  }

  lemma StartDistance(s: State, ctx: CrawlContext, c: CrawlContext)
    requires Enabled(s, RunNext) && s.es.batch[0] == Start(ctx)
    ensures var t := Step(s, RunNext);
            && t.created == s.created && Overhead(t) == Overhead(s)
            && Distance(t, c) + (if c == ctx then 1 else 0) <= Distance(s, c)
  {
    StartCounts(s, ctx, c);
  }

  lemma AnswerPollDistance(s: State, c: CrawlContext)
    requires Enabled(s, RunNext) && s.es.batch[0] == Report
    ensures var t := Step(s, RunNext);
            t.created == s.created && Distance(t, c) <= Distance(s, c)
  {
    TakeReport(s, c);
    ReportDistance(s.(es := Step(s, RunNext).es), c);
  }

  /** Taking a report from the batch is no step of any task. */
  lemma TakeReport(s: State, c: CrawlContext)
    requires Enabled(s, RunNext) && s.es.batch[0] == Report
    ensures var s1 := s.(es := Step(s, RunNext).es);
            Step(s, RunNext) == ReportStep(s1) && Distance(s1, c) == Distance(s, c)
  {
    PollCounts(s, c);
  }

  lemma ReportDistance(s: State, c: CrawlContext)
    ensures Distance(ReportStep(s), c) <= Distance(s, c)
  {
    CountThose(s.tasks, s.done, c);
    CountReverse(Others(s.tasks, s.done));
  }

  lemma LoopDistance(s: State, e: Event, c: CrawlContext)
    requires Enabled(s, e) && WellFormed(s) && (e.DnsDrain? || e.Fire? || e.Swap?)
    ensures var t := Step(s, e);
            t.created == s.created && Distance(t, c) <= Distance(s, c)
  {
    assert EventServer.Sound(s.es);
    assert Waiting(Step(s, e), c) == Waiting(s, c);
  }

  lemma CompleteDistance(s: State, ctx: CrawlContext, c: CrawlContext)
    requires Enabled(s, Complete(ctx)) && Tracked(s, ctx)
    ensures var t := Step(s, Complete(ctx));
            && t.created == s.created && Overhead(t) == Overhead(s)
            && Distance(t, c) + (if c == ctx then 1 else 0) <= Distance(s, c)
  {
    assert Waiting(Step(s, Complete(ctx)), c) == Waiting(s, c);
  }

  // ---------- Each step, for all tasks ----------

  /** The task an event moves, if it must move one. */
  function Moved(s: State, e: Event): Option<CrawlContext> {
    match e
    case AddNext(_, _) => if s.arriving == [] then None else Some(s.arriving[0])
    case DnsReply(name, _, _, _) =>
      var cbs := Resolver.Lookup(s.dns, name).cbs;
      if cbs == [] then None else Some(cbs[0])
    case RunNext => if s.es.batch != [] && s.es.batch[0].Start? then Some(s.es.batch[0].ctx) else None
    case Complete(ctx) => Some(ctx)
    case _ => None
  }

  function Gain(e: Event): nat {
    if e.AddNext? || e.DnsReply? then 3 else 1
  }

  /** No task gets further from its end, and a moved task gains more than the overhead it causes. */
  lemma StepDistance(s: State, e: Event, c: CrawlContext)
    requires Enabled(s, e) && Internal(e) && WellFormed(s) && (e.Complete? ==> Tracked(s, e.ctx))
    ensures var t := Step(s, e);
            && t.created == s.created
            && Distance(t, c) + (if Moved(s, e) == Some(c) then Gain(e) else 0) <= Distance(s, c)
            && (Moved(s, e).Some? ==> Overhead(t) < Overhead(s) + Gain(e))
  {
    match e {
      case AddNext(now, draws) => AddDistance(s, now, draws, c);
      case DnsReply(name, reply, now, draws) =>
        ReplyDistance(s, name, reply, now, draws, c);
        assert Resolver.SingleFlight(s.dns, name);
      case RunNext =>
        if s.es.batch[0] == Report {
          AnswerPollDistance(s, c);
        } else {
          StartDistance(s, s.es.batch[0].ctx, c);
        }
      case Complete(ctx) => CompleteDistance(s, ctx, c);
      case _ => LoopDistance(s, e, c);
    }
  }

  /** A step that moves no task reduces the overhead; a reply always moves one. */
  lemma StepOverhead(s: State, e: Event)
    requires Enabled(s, e) && Internal(e) && WellFormed(s) && !e.DnsReply? && Moved(s, e) == None
    ensures var t := Step(s, e); t.created == s.created && Overhead(t) < Overhead(s)
  {
    assert EventServer.Sound(s.es);
    if e.RunNext? {
      PollOverhead(s);
    }
  }

  lemma PollOverhead(s: State)
    requires Enabled(s, RunNext) && s.es.batch[0] == Report
    ensures var t := Step(s, RunNext); t.created == s.created && Overhead(t) < Overhead(s)
  {
    CountHead(s.es.batch);
  }

  /** Whoever is moved was created. */
  lemma MovedIsCreated(s: State, e: Event, c: CrawlContext)
    requires Enabled(s, e) && WellFormed(s) && Tracked(s, c) && Moved(s, e) == Some(c)
    ensures c in s.created
  {
    if e.DnsReply? {
      var cbs: seq<CrawlContext> := Resolver.Lookup(s.dns, e.name).cbs;
      assert c in cbs && c.host == e.name;
      assert Waiting(s, c) > 0;
    } else if e.RunNext? {
      assert Start(c) in s.es.batch;
      assert InLoop(s, c) > 0;
    }
    assert Places(s, c) > 0;
  }

  /** In a reachable state every internal step strictly decreases the measure. */
  lemma StepDecreases(run: seq<Event>, e: Event)
    requires Legal(run) && Enabled(After(run), e) && Internal(e)
    ensures Measure(Step(After(run), e)) < Measure(After(run))
  {
    var s, t := After(run), Step(After(run), e);
    WellFormedAlways(run);
    if e.Complete? {
      TrackedAlways(run, e.ctx);
    }
    forall c | c in s.created
      ensures Distance(t, c) <= Distance(s, c)
    {
      StepDistance(s, e, c);
    }
    assert e.DnsReply? ==> Resolver.SingleFlight(s.dns, e.name);
    match Moved(s, e) {
      case Some(c) =>
        StepDistance(s, e, c);
        TrackedAlways(run, c);
        MovedIsCreated(s, e, c);
        TotalDrops(s, t, s.created, c, Gain(e));
      case None =>
        TotalLe(s, t, s.created);
        StepOverhead(s, e);
    }
  }

  // ---------- Polls ----------

  lemma PollDistance(s: State, c: CrawlContext)
    ensures Distance(Step(s, Poll), c) == Distance(s, c)
  {
    CountConcat(s.es.queue, [Report], Start(c));
    assert Waiting(Step(s, Poll), c) == Waiting(s, c);
  }

  /** A poll moves no task; it costs one report and at most one wake-up. */
  lemma PollMeasure(s: State)
    ensures Total(Step(s, Poll), s.created) == Total(s, s.created)
    ensures Measure(Step(s, Poll)) <= Measure(s) + 4
  {
    forall c | c in s.created
      ensures Distance(Step(s, Poll), c) == Distance(s, c)
    {
      PollDistance(s, c);
    }
    TotalSame(s, Step(s, Poll), s.created);
    CountConcat(s.es.queue, [Report], Report);
  }

  function Internals(run: seq<Event>): nat {
    if run == [] then 0 else Internals(Front(run)) + if Internal(Last(run)) then 1 else 0
  }

  function Polls(run: seq<Event>): nat {
    if run == [] then 0 else Polls(Front(run)) + if Last(run).Poll? then 1 else 0
  }

  lemma {:induction false} AllInternal(run: seq<Event>)
    requires forall e | e in run :: Internal(e)
    ensures Internals(run) == |run| && Polls(run) == 0
  {
    if run != [] {
      AllInternal(Front(run));
      assert Last(run) in run;
    }
  }

  // ---------- Which steps move a task ----------

  /** Some task gets closer to its end: all steps that hand tasks on, and those reports that find a finished one. */
  predicate MovesTask(s: State, e: Event) {
    match e
    case AddNext(_, _) => true
    case DnsReply(_, _, _, _) => true
    case Complete(_) => true
    case Swap => exists w | w in s.es.queue :: w.Start?
    case RunNext => s.es.batch != [] && (s.es.batch[0].Start? || exists c | c in s.tasks :: c in s.done)
    case _ => false
  }

  /** A task in the loop or in the list was created. */
  lemma KnownIsCreated(s: State, c: CrawlContext)
    requires Tracked(s, c) && (Start(c) in s.es.queue || c in s.tasks)
    ensures c in s.created
  {
    assert Start(c) in s.es.queue ==> multiset(s.es.queue)[Start(c)] > 0;
    assert InLoop(s, c) + multiset(s.tasks)[c] > 0;
    assert Places(s, c) > 0;
  }

  lemma SwapMoves(s: State, c: CrawlContext)
    requires Enabled(s, Swap) && WellFormed(s) && Start(c) in s.es.queue
    ensures Distance(Step(s, Swap), c) < Distance(s, c)
  {
    var t := Step(s, Swap);
    assert EventServer.Sound(s.es);
    assert Waiting(t, c) == Waiting(s, c);
    assert multiset(s.es.queue)[Start(c)] > 0 && t.es.batch == s.es.queue && t.es.queue == [];
  }

  lemma ReportMoves(s: State, c: CrawlContext)
    requires Enabled(s, RunNext) && s.es.batch[0] == Report && c in s.tasks && c in s.done
    ensures Distance(Step(s, RunNext), c) < Distance(s, c)
  {
    TakeReport(s, c);
    CountThose(s.tasks, s.done, c);
    CountReverse(Others(s.tasks, s.done));
    assert multiset(s.tasks)[c] > 0;
  }

  /** The task that such a step moves. */
  lemma MovedTask(run: seq<Event>, e: Event) returns (c: CrawlContext)
    requires Legal(run) && Enabled(After(run), e) && MovesTask(After(run), e)
    ensures c in After(run).created && Distance(Step(After(run), e), c) < Distance(After(run), c)
  {
    var s := After(run);
    WellFormedAlways(run);
    if e.Swap? {
      var w :| w in s.es.queue && w.Start?;
      c := w.ctx;
      TrackedAlways(run, c);
      SwapMoves(s, c);
      KnownIsCreated(s, c);
    } else if e.RunNext? && s.es.batch[0] == Report {
      c :| c in s.tasks && c in s.done;
      TrackedAlways(run, c);
      ReportMoves(s, c);
      KnownIsCreated(s, c);
    } else {
      assert e.DnsReply? ==> Resolver.SingleFlight(s.dns, e.name);
      c := Moved(s, e).value;
      TrackedAlways(run, c);
      if e.Complete? {
        TrackedAlways(run, e.ctx);
      }
      StepDistance(s, e, c);
      MovedIsCreated(s, e, c);
    }
  }

  /** No other step changes any task's distance. */
  lemma KeptDistance(s: State, e: Event, c: CrawlContext)
    requires Enabled(s, e) && WellFormed(s) && !e.Admit? && !MovesTask(s, e)
    ensures Distance(Step(s, e), c) == Distance(s, c)
  {
    if e.Poll? {
      PollDistance(s, c);
    } else if e.Swap? {
      assert EventServer.Sound(s.es);
      assert Start(c) !in s.es.queue;
      assert Waiting(Step(s, e), c) == Waiting(s, c);
    } else if e.RunNext? {
      EmptyReportDistance(s, c);
    } else {
      assert Waiting(Step(s, e), c) == Waiting(s, c);
    }
  }

  lemma EmptyReportDistance(s: State, c: CrawlContext)
    requires Enabled(s, RunNext) && s.es.batch[0] == Report && forall x | x in s.tasks :: x !in s.done
    ensures Distance(Step(s, RunNext), c) == Distance(s, c)
  {
    TakeReport(s, c);
    CountThose(s.tasks, s.done, c);
    CountReverse(Others(s.tasks, s.done));
    assert c in s.done ==> multiset(s.tasks)[c] == 0;
  }

  // ---------- Main results ----------

  /**
   Once task creation has stopped, the server takes only so many steps as the measure allows, and four more for
   each poll, wherever the polls come in between.
   */
  lemma {:induction false} RunsWithPollsEnd(run: seq<Event>, more: seq<Event>)
    requires Legal(run + more) && forall e | e in more :: !e.Admit?
    ensures Legal(run)
    ensures Internals(more) + Measure(After(run + more)) <= Measure(After(run)) + 4 * Polls(more)
  {
    if more == [] {
      assert run + more == run;
    } else {
      assert Front(run + more) == run + Front(more) && Last(run + more) == Last(more);
      assert Last(more) in more;
      RunsWithPollsEnd(run, Front(more));
      if Last(more).Poll? {
        PollMeasure(After(run + Front(more)));
      } else {
        StepDecreases(run + Front(more), Last(more));
      }
    }
  }

  /** Without polls, for no longer than the measure says. */
  lemma InternalRunsEnd(run: seq<Event>, more: seq<Event>)
    requires Legal(run + more) && forall e | e in more :: Internal(e)
    ensures Legal(run)
    ensures |more| + Measure(After(run + more)) <= Measure(After(run))
  {
    AllInternal(more);
    RunsWithPollsEnd(run, more);
  }

  /**
   The tasks' part of the measure: a step decreases it if it moves a task, a report that finds a finished one
   included, and leaves it alone otherwise. Polls leave it alone.
   */
  lemma StepMovesOrKeeps(run: seq<Event>, e: Event)
    requires Legal(run) && Enabled(After(run), e) && !e.Admit?
    ensures var s, t := After(run), Step(After(run), e);
            && t.created == s.created
            && if MovesTask(s, e) then Total(t, t.created) < Total(s, s.created) else Total(t, t.created) == Total(s, s.created)
  {
    var s, t := After(run), Step(After(run), e);
    WellFormedAlways(run);
    if MovesTask(s, e) {
      var c0 := MovedTask(run, e);
      if e.Complete? {
        TrackedAlways(run, e.ctx);
      }
      forall c | c in s.created
        ensures Distance(t, c) <= Distance(s, c)
      {
        StepDistance(s, e, c);
      }
      StepDistance(s, e, c0);
      TotalDrops(s, t, s.created, c0, 1);
    } else {
      forall c | c in s.created
        ensures Distance(t, c) == Distance(s, c)
      {
        KeptDistance(s, e, c);
      }
      TotalSame(s, t, s.created);
      KeptCreated(s, e);
    }
  }

  lemma KeptCreated(s: State, e: Event)
    requires Enabled(s, e) && !e.Admit? && !MovesTask(s, e)
    ensures Step(s, e).created == s.created
  {
  }

  /** A task is at distance zero exactly when it is reported or was dropped ... */
  lemma DistanceZeroIff(run: seq<Event>, c: CrawlContext)
    requires Legal(run) && c in After(run).created
    ensures Distance(After(run), c) == 0 <==> c in After(run).reported || c in After(run).dropped
  {
    var s := After(run);
    TrackedAlways(run, c);
    assert multiset(s.created)[c] == 1;
    assert Places(s, c) == 1;
  }

  /** ... so that the tasks' part of the measure is at its minimum exactly when every created task is. */
  lemma MinimumMeansAllEnded(run: seq<Event>)
    requires Legal(run)
    ensures var s := After(run);
            Total(s, s.created) == 0 <==> forall c | c in s.created :: c in s.reported || c in s.dropped
  {
    var s := After(run);
    TotalZero(s, s.created);
    forall c | c in s.created
      ensures Distance(s, c) == 0 <==> c in s.reported || c in s.dropped
    {
      DistanceZeroIff(run, c);
    }
  }

  /** The step that a task waits for, by where it is. */
  predicate Serves(s: State, c: CrawlContext, e: Event) {
    if c in s.arriving then e.AddNext?
    else if Waiting(s, c) > 0 then (e.DnsDrain? && c.host in s.dns.tasks) || (e.DnsReply? && e.name == c.host)
    else if InLoop(s, c) > 0 then e.Fire? || e.Swap? || e.RunNext?
    else if c in s.done then e.Poll?
    else e == Complete(c) || e.RunNext? || e.Swap?
  }

  /** No task is ever stuck: until it is reported or dropped, the step it waits for can be taken. */
  lemma UnfinishedTaskIsServed(run: seq<Event>, c: CrawlContext) returns (e: Event)
    requires Legal(run) && c in After(run).created && c !in After(run).reported && c !in After(run).dropped
    ensures Enabled(After(run), e) && Serves(After(run), c, e)
  {
    var s := After(run);
    WellFormedAlways(run);
    TrackedAlways(run, c);
    assert EventServer.Sound(s.es);
    assert Places(s, c) == 1;
    if c in s.arriving {
      e := AddNext(s.clock, []);
    } else if Waiting(s, c) > 0 {
      assert Resolver.SingleFlight(s.dns, c.host);
      e := if c.host in s.dns.tasks then DnsDrain else DnsReply(c.host, Resolver.Failed(""), s.clock, []);
      assert c.host !in s.dns.tasks ==> multiset(s.dns.tasks)[c.host] == 0;
    } else if InLoop(s, c) > 0 {
      e := LoopStep(s);
    } else if c in s.done {
      e := Poll;
    } else {
      assert multiset(s.tasks)[c] == 1;
      e := if s.es.batch != [] then RunNext else if s.es.draining then Swap else Complete(c);
    }
  }

  lemma LoopStep(s: State) returns (e: Event)
    requires EventServer.Sound(s.es) && (s.es.queue != [] || s.es.batch != [])
    ensures Enabled(s, e) && (e.Fire? || e.Swap? || e.RunNext?)
  {
    e := if s.es.batch != [] then RunNext else if s.es.draining then Swap else Fire;
  }

  /** Neither the DNS thread nor the loop nor curl has anything to do. */
  predicate Quiescent(s: State) {
    && s.arriving == [] && s.dns.tasks == [] && s.dns.inflight == multiset{}
    && !s.es.active && EventServer.Idle(s.es) && s.easies == multiset{}
  }

  lemma QuiescentIffNothingEnabled(s: State)
    ensures Quiescent(s) <==> forall e | Internal(e) :: !Enabled(s, e)
  {
    if !Quiescent(s) {
      var e := SomeStep(s);
    }
  }

  lemma SomeStep(s: State) returns (e: Event)
    requires !Quiescent(s)
    ensures Internal(e) && Enabled(s, e)
  {
    if s.arriving != [] {
      e := AddNext(s.clock, []);
    } else if s.dns.tasks != [] {
      e := DnsDrain;
    } else if s.dns.inflight != multiset{} {
      var n :| n in s.dns.inflight;
      e := DnsReply(n, Resolver.Failed(""), s.clock, []);
    } else if s.es.batch != [] {
      e := RunNext;
    } else if s.es.draining {
      e := Swap;
    } else if s.es.active {
      e := Fire;
    } else {
      var c :| c in s.easies;
      e := Complete(c);
    }
  }

  /** A task that has come to its end, or would be in the next poll's report. */
  predicate Settled(s: State, c: CrawlContext) {
    c in s.reported || c in s.dropped || (c in s.tasks && c in s.done)
  }

  /** The server never stops with a task unfinished: no request, wake-up or transfer is ever lost. */
  lemma QuiescentMeansSettled(run: seq<Event>, c: CrawlContext)
    requires Legal(run) && Quiescent(After(run)) && c in After(run).created
    ensures Settled(After(run), c)
    ensures After(run).es.queue == []
  {
    var s := After(run);
    WellFormedAlways(run);
    TrackedAlways(run, c);
    assert EventServer.Sound(s.es);
    assert Resolver.SingleFlight(s.dns, c.host);
    assert Places(s, c) == 1;
  }

  /** A poll is answered in the course of `more`. */
  ghost predicate Reports(run: seq<Event>, more: seq<Event>)
    decreases |more|
  {
    more != [] && Legal(run + Front(more)) &&
    (Reports(run, Front(more)) || AnswersPoll(After(run + Front(more)), Last(more)))
  }

  predicate AnswersPoll(s: State, e: Event) {
    e.RunNext? && s.es.batch != [] && s.es.batch[0] == Report
  }

  predicate Ended(s: State, c: CrawlContext) {
    c in s.reported || c in s.dropped
  }

  lemma StepSettled(s: State, e: Event, c: CrawlContext)
    requires Enabled(s, e) && Settled(s, c) && !e.RunNext?
    ensures Settled(Step(s, e), c) && (Ended(s, c) ==> Ended(Step(s, e), c))
  {
    match e {
      case AddNext(now, draws) =>
        var ctx := s.arriving[0];
        var o := Resolver.CallStep(s.dns, ctx.host, ctx, now);
        DispatchFrame(s.(arriving := s.arriving[1..], dns := o.state, clock := now), o.out, draws);
      case DnsReply(name, reply, now, draws) =>
        var o := Resolver.AnswerStep(s.dns, name, reply, now);
        DispatchFrame(s.(dns := o.state, clock := now, found := s.found + Found(name, reply)), o.out, draws);
      case _ =>
    }
  }

  /** A report ends every settled task. */
  lemma RunSettled(s: State, c: CrawlContext)
    requires Enabled(s, RunNext) && Settled(s, c)
    ensures Settled(Step(s, RunNext), c) && (Ended(s, c) || s.es.batch[0] == Report ==> Ended(Step(s, RunNext), c))
  {
    if s.es.batch[0] == Report && !Ended(s, c) {
      PollCounts(s, c);
      CountTaken(s.tasks, s.done, c);
      CountReverse(Those(s.tasks, s.done));
      assert multiset(s.tasks)[c] > 0;
      assert c in multiset(Reverse(Those(s.tasks, s.done)));
    }
  }

  lemma {:induction false} SettledStays(run: seq<Event>, more: seq<Event>, c: CrawlContext)
    requires Legal(run) && Legal(run + more) && Settled(After(run), c)
    ensures Settled(After(run + more), c)
    ensures Reports(run, more) ==> Ended(After(run + more), c)
  {
    if more == [] {
      assert run + more == run;
    } else {
      assert Front(run + more) == run + Front(more) && Last(run + more) == Last(more);
      SettledStays(run, Front(more), c);
      if Last(more).RunNext? {
        RunSettled(After(run + Front(more)), c);
      } else {
        StepSettled(After(run + Front(more)), Last(more), c);
      }
    }
  }

  /**
   Whatever else goes on, creation and polls included: the next answer to a poll reports every task that was done
   before, so that such a task is then reported, once, or dropped, never both.
   */
  lemma NextReportEndsTheDone(run: seq<Event>, more: seq<Event>, c: CrawlContext)
    requires Legal(run) && Legal(run + more) && Reports(run, more)
    requires c in After(run).created && c in After(run).done
    ensures var s := After(run + more);
            c !in s.tasks && multiset(s.reported)[c] == (if c in s.dropped then 0 else 1)
  {
    TrackedAlways(run, c);
    assert Settled(After(run), c);
    SettledStays(run, more, c);
    TrackedAlways(run + more, c);
    assert Places(After(run + more), c) == multiset(After(run + more).created)[c] <= 1;
    assert multiset(After(run + more).tasks)[c] == 0;
  }

  lemma Extend(run: seq<Event>, e: Event)
    requires Legal(run) && Enabled(After(run), e)
    ensures Legal(run + [e]) && After(run + [e]) == Step(After(run), e)
  {
    assert Front(run + [e]) == run;
  }

  lemma QuietPoll(run: seq<Event>)
    requires Legal(run) && Quiescent(After(run)) && After(run).es.queue == []
    ensures var s := After(run);
            Legal(run + [Poll]) && After(run + [Poll]) == s.(es := EventServer.State([Report], [], true, false))
  {
    Extend(run, Poll);
  }

  lemma FireReport(run: seq<Event>)
    requires Legal(run) && After(run).es == EventServer.State([Report], [], true, false)
    ensures var s := After(run);
            Legal(run + [Fire]) && After(run + [Fire]) == s.(es := EventServer.State([Report], [], false, true))
  {
    Extend(run, Fire);
  }

  lemma SwapReport(run: seq<Event>)
    requires Legal(run) && After(run).es == EventServer.State([Report], [], false, true)
    ensures var s := After(run);
            Legal(run + [Swap]) && After(run + [Swap]) == s.(es := EventServer.State([], [Report], false, false))
  {
    Extend(run, Swap);
  }

  lemma RunReport(run: seq<Event>)
    requires Legal(run) && After(run).es == EventServer.State([], [Report], false, false)
    ensures var s := After(run).(es := EventServer.State([], [], false, false));
            Legal(run + [RunNext]) && After(run + [RunNext]) == ReportStep(s)
  {
    Extend(run, RunNext);
  }

  /** A poll of a quiescent server is answered by one wake-up. */
  lemma PollRound(run: seq<Event>)
    requires Legal(run) && Quiescent(After(run)) && After(run).es.queue == []
    ensures var last := run + [Poll] + [Fire] + [Swap] + [RunNext];
            Legal(last) && After(last) == ReportStep(After(run))
  {
    QuietPoll(run);
    FireReport(run + [Poll]);
    SwapReport(run + [Poll] + [Fire]);
    RunReport(run + [Poll] + [Fire] + [Swap]);
  }

  /** One poll then reports every finished task: each ends reported, or failed in DNS, never both. */
  lemma FinalPollReportsEverything(run: seq<Event>, c: CrawlContext)
    requires Legal(run) && Quiescent(After(run)) && c in After(run).created
    ensures var last := run + [Poll] + [Fire] + [Swap] + [RunNext];
            && Legal(last) && After(last).created == After(run).created && c !in After(last).tasks
            && multiset(After(last).reported)[c] == if c in After(run).dropped then 0 else 1
  {
    QuiescentMeansSettled(run, c);
    TrackedAlways(run, c);
    PollRound(run);
    ReportTracked(After(run), c);
    assert Places(After(run), c) == 1;
  }
}
