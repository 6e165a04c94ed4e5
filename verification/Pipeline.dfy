/**
 The life of a task through the whole fetch server: Fetcher/Fetcher.cpp on top of base/Resolver.cpp and
 base/EventServer.cpp, as one state machine over the atomic steps of its three threads.
 */
module Pipeline {
  import opened Names
  import opened CrawlContext
  import Resolver
  import EventServer

  /** What the event loop is asked to run: start the transfer of a resolved task, or answer a poll. */
  datatype Work = Start(ctx: CrawlContext) | Report

  /**
   `arriving` are tasks a create request admitted and has not yet handed to add(); `easies` are the tasks
   whose address curl holds in a registered easy handle. `created` (every task admitted), `reported`,
   `dropped` (failed in DNS) and `found` (every address a successful DNS reply gave) are the history.
   */
  datatype State = State(
    created: seq<CrawlContext>,
    arriving: seq<CrawlContext>,
    dns: Resolver.State<CrawlContext>,
    es: EventServer.State<Work>,
    tasks: seq<CrawlContext>,
    easies: multiset<CrawlContext>,
    done: set<CrawlContext>,
    ips: map<CrawlContext, Ip>,
    reported: seq<CrawlContext>,
    dropped: seq<CrawlContext>,
    found: set<(Host, Ip)>,
    clock: int)

  /** `draws` are the values rand() gives to the callbacks run at this step. */
  datatype Event =
    | Admit(ctxs: seq<CrawlContext>)
    | AddNext(now: int, draws: seq<nat>)
    | DnsDrain
    | DnsReply(name: Host, reply: Resolver.Reply, now: int, draws: seq<nat>)
    | Poll
    | Fire
    | Swap
    | RunNext
    | Complete(ctx: CrawlContext)

  function Init(): State {
    State([], [], Resolver.Init(), EventServer.Init(), [], multiset{}, {}, map[], [], [], {}, 1)
  }

  /** The address a random draw selects. */
  function Pick(addrs: seq<Ip>, draws: seq<nat>, i: nat): (ip: Ip)
    requires addrs != []
    ensures ip in addrs
  {
    addrs[(if i < |draws| then draws[i] else 0) % |addrs|]
  }

  /** The resolver callback of Fetcher::add: a failure finishes the task outside the task list, unreported. */
  function OnResolved(s: State, d: Delivery<CrawlContext>, draws: seq<nat>, i: nat): State {
    if d.status != Ok then s.(done := s.done + {d.cb}, dropped := s.dropped + [d.cb])
    else s.(ips := if d.addrs == [] then s.ips else s.ips[d.cb := Pick(d.addrs, draws, i)],
            es := EventServer.AddStep(s.es, Start(d.cb)))
  }

  /** The resolver runs the callbacks of one step one after the other. */
  function Dispatch(s: State, out: seq<Delivery<CrawlContext>>, draws: seq<nat>): State {
    if out == [] then s else OnResolved(Dispatch(s, Front(out), draws), Last(out), draws, |out| - 1)
  }

  function Reverse<T>(s: seq<T>): seq<T> {
    if s == [] then [] else [Last(s)] + Reverse(Front(s))
  }

  function Those(s: seq<CrawlContext>, keep: set<CrawlContext>): seq<CrawlContext> {
    if s == [] then [] else Those(Front(s), keep) + if Last(s) in keep then [Last(s)] else []
  }

  function Others(s: seq<CrawlContext>, drop: set<CrawlContext>): seq<CrawlContext> {
    if s == [] then [] else Others(Front(s), drop) + if Last(s) in drop then [] else [Last(s)]
  }

  /** The poll callback takes the list apart from the back: both halves come out reversed. */
  function ReportStep(s: State): State {
    s.(reported := s.reported + Reverse(Those(s.tasks, s.done)), tasks := Reverse(Others(s.tasks, s.done)))
  }

  function Run(s: State, work: Work): State {
    match work
    case Start(ctx) => s.(tasks := s.tasks + [ctx], easies := s.easies + multiset{ctx})
    case Report => ReportStep(s)
  }

  /** curl reports a transfer as finished: the handle goes, the task stays in the list. */
  function Completed(s: State, ctx: CrawlContext): State {
    s.(done := s.done + {ctx}, easies := s.easies - multiset{ctx})
  }

  function AddStep(s: State, now: int, draws: seq<nat>): State
    requires s.arriving != []
  {
    var ctx := s.arriving[0];
    var o := Resolver.CallStep(s.dns, ctx.host, ctx, now);
    Dispatch(s.(arriving := s.arriving[1..], dns := o.state, clock := now), o.out, draws)
  }

  function Found(name: Host, reply: Resolver.Reply): set<(Host, Ip)> {
    if reply.Found? then set a | a in reply.addrs :: (name, a) else {}
  }

  function ReplyStep(s: State, name: Host, reply: Resolver.Reply, now: int, draws: seq<nat>): State {
    var o := Resolver.AnswerStep(s.dns, name, reply, now);
    Dispatch(s.(dns := o.state, clock := now, found := s.found + Found(name, reply)), o.out, draws)
  }

  /**
   What can happen: contexts are fresh objects; time moves on; evdns answers what it was asked, with at
   least one address on success; loop callbacks run one at a time; curl completes registered handles,
   from handlers that the loop runs between batches.
   */
  predicate Enabled(s: State, e: Event) {
    match e
    case Admit(ctxs) =>
      && (forall i, j | 0 <= i < j < |ctxs| :: ctxs[i] != ctxs[j])
      && (forall c | c in ctxs :: c !in s.created)
    case AddNext(now, _) => s.arriving != [] && s.clock <= now
    case DnsDrain => s.dns.tasks != []
    case DnsReply(name, reply, now, _) =>
      name in s.dns.inflight && s.clock <= now && (reply.Found? ==> reply.addrs != [])
    case Poll => true
    case Fire => EventServer.Enabled(s.es, EventServer.Event<Work>.Fire)
    case Swap => EventServer.Enabled(s.es, EventServer.Event<Work>.Swap)
    case RunNext => EventServer.Enabled(s.es, EventServer.Event<Work>.RunNext)
    case Complete(ctx) => ctx in s.easies && EventServer.Idle(s.es)
  }

  function Step(s: State, e: Event): State
    requires Enabled(s, e)
  {
    match e
    case Admit(ctxs) => s.(created := s.created + ctxs, arriving := s.arriving + ctxs)
    case AddNext(now, draws) => AddStep(s, now, draws)
    case DnsDrain => s.(dns := Resolver.DrainStep(s.dns).state)
    case DnsReply(name, reply, now, draws) => ReplyStep(s, name, reply, now, draws)
    case Poll => s.(es := EventServer.AddStep(s.es, Report))
    case Fire => s.(es := EventServer.Step(s.es, EventServer.Event<Work>.Fire))
    case Swap => s.(es := EventServer.Step(s.es, EventServer.Event<Work>.Swap))
    case RunNext =>
      Run(s.(es := EventServer.Step(s.es, EventServer.Event<Work>.RunNext)), s.es.batch[0])
    case Complete(ctx) => Completed(s, ctx)
  }

  // ---------- Where a task is ----------

  function Waiting(s: State, c: CrawlContext): nat {
    multiset(Resolver.Lookup(s.dns, c.host).cbs)[c]
  }

  function InLoop(s: State, c: CrawlContext): nat {
    multiset(s.es.queue)[Start(c)] + multiset(s.es.batch)[Start(c)]
  }

  /** In how many places of the server, or of its history, a task is. */
  function Places(s: State, c: CrawlContext): nat {
    multiset(s.arriving)[c] + Waiting(s, c) + InLoop(s, c) + multiset(s.tasks)[c] +
    multiset(s.reported)[c] + multiset(s.dropped)[c]
  }

  /** What holds of one task: it is in one place, and curl and `done` agree on how far it is. */
  ghost predicate Tracked(s: State, c: CrawlContext) {
    && Places(s, c) == multiset(s.created)[c] <= 1
    && (multiset(s.reported)[c] + multiset(s.dropped)[c] > 0 ==> c in s.done)
    && (c in s.done ==> multiset(s.reported)[c] + multiset(s.dropped)[c] + multiset(s.tasks)[c] > 0)
    && s.easies[c] == (if c in s.done then 0 else multiset(s.tasks)[c])
  }

  /** The parts of the invariant that concern the resolver and the loop. */
  ghost predicate WellFormed(s: State) {
    && (forall n: Host :: Resolver.SingleFlight(s.dns, n))
    && (forall n, c | n in s.dns.infos && c in s.dns.infos[n].cbs :: c.host == n)
    && EventServer.Sound(s.es)
  }

  // ---------- Dispatch in one go ----------

  function Starts(cbs: seq<CrawlContext>): seq<Work> {
    seq(|cbs|, i requires 0 <= i < |cbs| => Start(cbs[i]))
  }

  lemma StartsFrontLast(cbs: seq<CrawlContext>)
    requires cbs != []
    ensures Starts(cbs) == Starts(Front(cbs)) + [Start(Last(cbs))]
  {
  }

  /** The callbacks of one step all get the same answer: either all are dropped ... */
  lemma {:induction false} DispatchFailure(s: State, cbs: seq<CrawlContext>, n: Host, addrs: seq<Ip>, st: Status, draws: seq<nat>)
    requires st != Ok
    ensures Dispatch(s, Deliver(cbs, n, addrs, st), draws) ==
            s.(done := s.done + (set c | c in cbs), dropped := s.dropped + cbs)
  {
    if cbs == [] {
      assert s.dropped + cbs == s.dropped;
    } else {
      var front, last := Front(cbs), Last(cbs);
      DispatchFailure(s, front, n, addrs, st, draws);
      assert cbs == front + [last];
      DeliverSnoc(front, last, n, addrs, st);
      DispatchSnoc(s, Deliver(front, n, addrs, st), Delivery(last, n, addrs, st), draws);
      DropOneMore(s.done, s.dropped, front, last);
    }
  }

  lemma DispatchSnoc(s: State, out: seq<Delivery<CrawlContext>>, d: Delivery<CrawlContext>, draws: seq<nat>)
    ensures Dispatch(s, out + [d], draws) == OnResolved(Dispatch(s, out, draws), d, draws, |out|)
  {
    assert Front(out + [d]) == out;
  }

  lemma DropOneMore(done: set<CrawlContext>, dropped: seq<CrawlContext>, cbs: seq<CrawlContext>, c: CrawlContext)
    ensures done + (set x | x in cbs) + {c} == done + (set x | x in cbs + [c])
    ensures dropped + cbs + [c] == dropped + (cbs + [c])
  {
  }

  /** ... or all are queued for the loop, each with one of the addresses. */
  lemma {:induction false} DispatchSuccess(s: State, cbs: seq<CrawlContext>, n: Host, addrs: seq<Ip>, draws: seq<nat>)
    ensures var t := Dispatch(s, Deliver(cbs, n, addrs, Ok), draws);
            t == s.(es := s.es.(queue := s.es.queue + Starts(cbs), active := s.es.active || cbs != []), ips := t.ips)
  {
    if cbs == [] {
      assert s.es.queue + Starts(cbs) == s.es.queue;
    } else {
      assert Front(Deliver(cbs, n, addrs, Ok)) == Deliver(Front(cbs), n, addrs, Ok);
      DispatchSuccess(s, Front(cbs), n, addrs, draws);
      StartsFrontLast(cbs);
      assert s.es.queue + Starts(cbs) == s.es.queue + Starts(Front(cbs)) + [Start(Last(cbs))];
    }
  }

  lemma DispatchOne(s: State, d: Delivery<CrawlContext>, draws: seq<nat>)
    ensures Dispatch(s, [d], draws) == OnResolved(s, d, draws, 0)
  {
    assert Front([d]) == [];
  }

  lemma {:induction false} DispatchPicks(s: State, cbs: seq<CrawlContext>, n: Host, addrs: seq<Ip>, draws: seq<nat>, c: CrawlContext)
    requires addrs != []
    ensures var t := Dispatch(s, Deliver(cbs, n, addrs, Ok), draws);
            if c in cbs then c in t.ips && t.ips[c] in addrs
            else (c in t.ips <==> c in s.ips) && (c in s.ips ==> t.ips[c] == s.ips[c])
  {
    if cbs != [] {
      assert Front(Deliver(cbs, n, addrs, Ok)) == Deliver(Front(cbs), n, addrs, Ok);
      DispatchPicks(s, Front(cbs), n, addrs, draws, c);
    }
  }

  // ---------- Counting ----------

  lemma {:induction false} CountStarts(cbs: seq<CrawlContext>, c: CrawlContext)
    ensures multiset(Starts(cbs))[Start(c)] == multiset(cbs)[c] && Report !in multiset(Starts(cbs))
  {
    if cbs != [] {
      CountStarts(Front(cbs), c);
      StartsFrontLast(cbs);
      assert cbs == Front(cbs) + [Last(cbs)];
      assert multiset(Starts(cbs)) == multiset(Starts(Front(cbs))) + multiset{Start(Last(cbs))};
    }
  }

  lemma {:induction false} CountReverse<T>(s: seq<T>)
    ensures multiset(Reverse(s)) == multiset(s)
  {
    if s != [] {
      CountReverse(Front(s));
      assert s == Front(s) + [Last(s)];
    }
  }

  lemma CountThose(s: seq<CrawlContext>, done: set<CrawlContext>, c: CrawlContext)
    ensures multiset(Those(s, done))[c] == if c in done then multiset(s)[c] else 0
    ensures multiset(Others(s, done))[c] == if c in done then 0 else multiset(s)[c]
  {
    CountTaken(s, done, c);
    CountLeft(s, done, c);
  }

  lemma {:induction false} CountTaken(s: seq<CrawlContext>, done: set<CrawlContext>, c: CrawlContext)
    ensures multiset(Those(s, done))[c] == if c in done then multiset(s)[c] else 0
  {
    if s != [] {
      var front, last := Front(s), Last(s);
      CountTaken(front, done, c);
      assert s == front + [last];
      CountSnoc(front, last, c);
      if last in done {
        CountSnoc(Those(front, done), last, c);
      } else {
        assert Those(s, done) == Those(front, done);
      }
    }
  }

  lemma {:induction false} CountLeft(s: seq<CrawlContext>, done: set<CrawlContext>, c: CrawlContext)
    ensures multiset(Others(s, done))[c] == if c in done then 0 else multiset(s)[c]
  {
    if s != [] {
      var front, last := Front(s), Last(s);
      CountLeft(front, done, c);
      assert s == front + [last];
      CountSnoc(front, last, c);
      if last in done {
        assert Others(s, done) == Others(front, done);
      } else {
        CountSnoc(Others(front, done), last, c);
      }
    }
  }

  lemma {:induction false} CountDistinct(s: seq<CrawlContext>, c: CrawlContext)
    requires forall i, j | 0 <= i < j < |s| :: s[i] != s[j]
    ensures multiset(s)[c] == if c in s then 1 else 0
  {
    if s != [] {
      CountDistinct(Front(s), c);
      assert s == Front(s) + [Last(s)];
    }
  }

  lemma CountHead<T>(s: seq<T>)
    requires s != []
    ensures multiset(s) == multiset{s[0]} + multiset(s[1..])
  {
    assert s == [s[0]] + s[1..];
  }

  // ---------- Every step keeps the invariant ----------

  lemma AdmitTracked(s: State, ctxs: seq<CrawlContext>, c: CrawlContext)
    requires Enabled(s, Admit(ctxs)) && Tracked(s, c)
    ensures Tracked(Step(s, Admit(ctxs)), c)
  {
    CountDistinct(ctxs, c);
    assert c in ctxs ==> multiset(s.created)[c] == 0;
  }

  /** What add() does to the resolver: the callback is either run at once or waits with the others. */
  lemma CallOutcome(dns: Resolver.State<CrawlContext>, ctx: CrawlContext, now: int)
    ensures var o := Resolver.CallStep(dns, ctx.host, ctx, now);
            && (o.out == [] || (|o.out| == 1 && o.out[0].cb == ctx))
            && o.state.inflight == dns.inflight
            && (o.out != [] ==> o.state.tasks == dns.tasks)
            && |o.state.tasks| <= |dns.tasks| + 1
            && Resolver.Lookup(o.state, ctx.host).cbs ==
                 Resolver.Lookup(dns, ctx.host).cbs + (if o.out == [] then [ctx] else [])
            && forall n | n != ctx.host :: Resolver.Lookup(o.state, n) == Resolver.Lookup(dns, n)
  {
  }

  lemma AddTracked(s: State, now: int, draws: seq<nat>, c: CrawlContext)
    requires s.arriving != [] && Tracked(s, c)
    ensures Tracked(AddStep(s, now, draws), c)
  {
    var ctx := s.arriving[0];
    var o := Resolver.CallStep(s.dns, ctx.host, ctx, now);
    CallOutcome(s.dns, ctx, now);
    CountHead(s.arriving);
    var s0 := s.(arriving := s.arriving[1..], dns := o.state, clock := now);
    if o.out == [] {
      CountConcat(Resolver.Lookup(s.dns, ctx.host).cbs, [ctx], c);
      WaitTracked(s, s0, ctx, c);
    } else {
      var d := o.out[0];
      assert Waiting(s0, c) == Waiting(s, c);
      assert o.out == Deliver([ctx], d.name, d.addrs, d.status);
      DispatchTracked(s, s0, [ctx], d.name, d.addrs, d.status, draws, c);
    }
  }

  /** A task that must wait goes from the head of the arrivals to the waiting list of its name. */
  lemma WaitTracked(s: State, s0: State, ctx: CrawlContext, c: CrawlContext)
    requires Tracked(s, c) && Waiting(s0, c) == Waiting(s, c) + if c == ctx then 1 else 0
    requires s0 == s.(arriving := s0.arriving, dns := s0.dns, clock := s0.clock)
    requires multiset(s.arriving) == multiset{ctx} + multiset(s0.arriving)
    ensures Tracked(s0, c)
  {
  }

  /** A reply empties the waiting list of its name and of no other. */
  lemma ReplyWaiting(s: State, name: Host, reply: Resolver.Reply, now: int, c: CrawlContext)
    requires WellFormed(s)
    ensures var cbs: seq<CrawlContext> := Resolver.Lookup(s.dns, name).cbs;
            var t := s.(dns := Resolver.AnswerStep(s.dns, name, reply, now).state);
            Waiting(t, c) + multiset(cbs)[c] == Waiting(s, c)
  {
    var cbs: seq<CrawlContext> := Resolver.Lookup(s.dns, name).cbs;
    assert c.host != name ==> c !in cbs;
  }

  lemma ReplyTracked(s: State, name: Host, reply: Resolver.Reply, now: int, draws: seq<nat>, c: CrawlContext)
    requires Tracked(s, c) && WellFormed(s)
    ensures Tracked(ReplyStep(s, name, reply, now, draws), c)
  {
    var cbs: seq<CrawlContext> := Resolver.Lookup(s.dns, name).cbs;
    var info := Resolver.Answered(Resolver.Lookup(s.dns, name), reply, now);
    var o := Resolver.AnswerStep(s.dns, name, reply, now);
    ReplyWaiting(s, name, reply, now, c);
    DispatchTracked(s, s.(dns := o.state, clock := now, found := s.found + Found(name, reply)),
                    cbs, name, info.addrs, info.status, draws, c);
  }

  /** The tasks whose callbacks run left the arrivals or the resolver's waiting list. */
  ghost predicate Handed(s: State, s0: State, cbs: seq<CrawlContext>, c: CrawlContext) {
    && s0 == s.(arriving := s0.arriving, dns := s0.dns, clock := s0.clock, found := s0.found)
    && multiset(s0.arriving)[c] + Waiting(s0, c) + multiset(cbs)[c] == multiset(s.arriving)[c] + Waiting(s, c)
  }

  /** They are tracked in the loop's queue or among the dropped. */
  lemma DispatchTracked(s: State, s0: State, cbs: seq<CrawlContext>, n: Host, addrs: seq<Ip>, st: Status, draws: seq<nat>, c: CrawlContext)
    requires Tracked(s, c) && Handed(s, s0, cbs, c)
    ensures Tracked(Dispatch(s0, Deliver(cbs, n, addrs, st), draws), c)
  {
    if st == Ok {
      DispatchSuccess(s0, cbs, n, addrs, draws);
      QueuedTracked(s, s0, Dispatch(s0, Deliver(cbs, n, addrs, st), draws), cbs, c);
    } else {
      DispatchFailure(s0, cbs, n, addrs, st, draws);
      DroppedTracked(s, s0, cbs, c);
    }
  }

  lemma QueuedTracked(s: State, s0: State, t: State, cbs: seq<CrawlContext>, c: CrawlContext)
    requires Tracked(s, c) && Handed(s, s0, cbs, c)
    requires t == s0.(es := t.es, ips := t.ips) && t.es.queue == s.es.queue + Starts(cbs) && t.es.batch == s.es.batch
    ensures Tracked(t, c)
  {
    CountStarts(cbs, c);
    CountConcat(s.es.queue, Starts(cbs), Start(c));
    assert Waiting(t, c) == Waiting(s0, c);
  }

  lemma DroppedTracked(s: State, s0: State, cbs: seq<CrawlContext>, c: CrawlContext)
    requires Tracked(s, c) && Handed(s, s0, cbs, c)
    ensures Tracked(s0.(done := s0.done + (set x | x in cbs), dropped := s0.dropped + cbs), c)
  {
    var t := s0.(done := s0.done + (set x | x in cbs), dropped := s0.dropped + cbs);
    CountConcat(s.dropped, cbs, c);
    assert Waiting(t, c) == Waiting(s0, c) && InLoop(t, c) == InLoop(s, c);
    assert c in cbs <==> multiset(cbs)[c] > 0;
  }

  lemma LoopTracked(s: State, e: Event, c: CrawlContext)
    requires Enabled(s, e) && (e.Poll? || e.Fire? || e.Swap? || e.DnsDrain?) && Tracked(s, c) && WellFormed(s)
    ensures Tracked(Step(s, e), c)
  {
    var t := Step(s, e);
    LoopKeeps(s, e, c);
    SameTracked(s, t, c);
  }

  /** Such a step leaves a task where it is, or hands it from the queue to the batch. */
  lemma LoopKeeps(s: State, e: Event, c: CrawlContext)
    requires Enabled(s, e) && (e.Poll? || e.Fire? || e.Swap? || e.DnsDrain?) && WellFormed(s)
    ensures var t := Step(s, e);
            t == s.(dns := t.dns, es := t.es) && InLoop(t, c) == InLoop(s, c) && Waiting(t, c) == Waiting(s, c)
  {
    if e.Poll? {
      CountSnoc(s.es.queue, Report, Start(c));
    } else if e.Swap? {
      SwapKeeps(s, c);
    } else {
      assert Step(s, e).es.queue == s.es.queue && Step(s, e).es.batch == s.es.batch;
    }
  }

  lemma SwapKeeps(s: State, c: CrawlContext)
    requires Enabled(s, Swap) && WellFormed(s)
    ensures InLoop(Step(s, Swap), c) == InLoop(s, c)
  {
    assert EventServer.Sound(s.es) && s.es.draining;
  }

  lemma SameTracked(s: State, t: State, c: CrawlContext)
    requires Tracked(s, c) && t == s.(dns := t.dns, es := t.es)
    requires InLoop(t, c) == InLoop(s, c) && Waiting(t, c) == Waiting(s, c)
    ensures Tracked(t, c)
  {
  }

  lemma RunTracked(s: State, c: CrawlContext)
    requires Enabled(s, RunNext) && Tracked(s, c)
    ensures Tracked(Step(s, RunNext), c)
  {
    match s.es.batch[0] {
      case Start(ctx) => StartTracked(s, ctx, c);
      case Report =>
        var s1 := s.(es := Step(s, RunNext).es);
        PollCounts(s, c);
        SameTracked(s, s1, c);
        ReportTracked(s1, c);
    }
  }

  /** Answering a poll takes no task from the loop. */
  lemma PollCounts(s: State, c: CrawlContext)
    requires Enabled(s, RunNext) && s.es.batch[0] == Report
    ensures var s1 := s.(es := Step(s, RunNext).es);
            && Step(s, RunNext) == ReportStep(s1) && InLoop(s1, c) == InLoop(s, c) && Waiting(s1, c) == Waiting(s, c)
            && s1.es.queue == s.es.queue && multiset(s1.es.batch)[Start(c)] == multiset(s.es.batch)[Start(c)]
  {
    CountHead(s.es.batch);
  }

  lemma StartTracked(s: State, ctx: CrawlContext, c: CrawlContext)
    requires Enabled(s, RunNext) && Tracked(s, c) && s.es.batch[0] == Start(ctx)
    ensures Tracked(Step(s, RunNext), c)
  {
    StartCounts(s, ctx, c);
    assert c == ctx ==> c !in s.done;
  }

  /** A started task goes from the loop to the task list. */
  lemma StartCounts(s: State, ctx: CrawlContext, c: CrawlContext)
    requires Enabled(s, RunNext) && s.es.batch[0] == Start(ctx)
    ensures var t, one := Step(s, RunNext), if c == ctx then 1 else 0;
            && t == s.(es := t.es, tasks := t.tasks, easies := s.easies + multiset{ctx})
            && t.es == s.es.(batch := s.es.batch[1..])
            && multiset(t.es.batch)[Start(c)] + one == multiset(s.es.batch)[Start(c)]
            && multiset(t.es.batch)[Report] == multiset(s.es.batch)[Report]
            && multiset(t.tasks)[c] == multiset(s.tasks)[c] + one && Waiting(t, c) == Waiting(s, c)
  {
    CountHead(s.es.batch);
    CountSnoc(s.tasks, ctx, c);
  }

  /** The poll moves the finished tasks, and no others, from the list to the report. */
  lemma ReportTracked(s: State, c: CrawlContext)
    requires Tracked(s, c)
    ensures Tracked(ReportStep(s), c)
    ensures multiset(ReportStep(s).tasks)[c] == if c in s.done then 0 else multiset(s.tasks)[c]
    ensures multiset(ReportStep(s).reported)[c] == multiset(s.reported)[c] + if c in s.done then multiset(s.tasks)[c] else 0
  {
    CountThose(s.tasks, s.done, c);
    CountReverse(Those(s.tasks, s.done));
    CountReverse(Others(s.tasks, s.done));
    CountConcat(s.reported, Reverse(Those(s.tasks, s.done)), c);
  }

  lemma CompleteTracked(s: State, ctx: CrawlContext, c: CrawlContext)
    requires Enabled(s, Complete(ctx)) && Tracked(s, c) && Tracked(s, ctx)
    ensures Tracked(Step(s, Complete(ctx)), c)
  {
  }

  lemma StepTracked(s: State, e: Event, c: CrawlContext)
    requires Enabled(s, e) && WellFormed(s) && Tracked(s, c)
    requires e.Complete? ==> Tracked(s, e.ctx)
    ensures Tracked(Step(s, e), c)
  {
    match e {
      case Admit(ctxs) => AdmitTracked(s, ctxs, c);
      case AddNext(now, draws) => AddTracked(s, now, draws, c);
      case DnsReply(name, reply, now, draws) => ReplyTracked(s, name, reply, now, draws, c);
      case RunNext => RunTracked(s, c);
      case Complete(ctx) => CompleteTracked(s, ctx, c);
      case _ => LoopTracked(s, e, c);
    }
  }

  // ---------- The resolver and the loop ----------

  /** Dispatch touches the loop only by adding work, which keeps it sound, and the resolver not at all. */
  lemma {:induction false} DispatchFrame(s: State, out: seq<Delivery<CrawlContext>>, draws: seq<nat>)
    ensures var t := Dispatch(s, out, draws);
            && (EventServer.Sound(s.es) ==> EventServer.Sound(t.es))
            && t.dns == s.dns && t.created == s.created && t.arriving == s.arriving && t.tasks == s.tasks
            && t.easies == s.easies && t.reported == s.reported && t.found == s.found && t.clock == s.clock
            && s.done <= t.done && s.dropped <= t.dropped
  {
    if out != [] {
      DispatchFrame(s, Front(out), draws);
    }
  }

  lemma DnsWellFormed(s: State, e: Resolver.Event<CrawlContext>, t: State)
    requires WellFormed(s)
    requires e.Call? ==> e.cb.host == e.name
    requires e.Answer? ==> e.name in s.dns.inflight
    requires t.dns == Resolver.Step(s.dns, e).state && EventServer.Sound(t.es)
    ensures WellFormed(t)
  {
    forall n: Host
      ensures Resolver.SingleFlight(t.dns, n)
    {
      assert Resolver.SingleFlight(s.dns, n);
      Resolver.SingleFlightStep(s.dns, e, n);
    }
    forall n, c | n in t.dns.infos && c in t.dns.infos[n].cbs
      ensures c.host == n
    {
      CallbacksFrom(s.dns, e, n, c);
    }
  }

  /** A callback that waits for a name waited before or was just registered for it. */
  lemma CallbacksFrom(dns: Resolver.State<CrawlContext>, e: Resolver.Event<CrawlContext>, n: Host, c: CrawlContext)
    requires var t := Resolver.Step(dns, e).state; n in t.infos && c in t.infos[n].cbs
    ensures (n in dns.infos && c in dns.infos[n].cbs) || (e.Call? && e.name == n && e.cb == c)
  {
  }

  lemma StepWellFormed(s: State, e: Event)
    requires Enabled(s, e) && WellFormed(s)
    ensures WellFormed(Step(s, e))
  {
    assert EventServer.Sound(s.es);
    match e {
      case AddNext(now, draws) =>
        var ctx := s.arriving[0];
        var o := Resolver.CallStep(s.dns, ctx.host, ctx, now);
        DispatchFrame(s.(arriving := s.arriving[1..], dns := o.state, clock := now), o.out, draws);
        DnsWellFormed(s, Resolver.Call(ctx.host, ctx, now), Step(s, e));
      case DnsDrain =>
        DnsWellFormed(s, Resolver.Event<CrawlContext>.Drain, Step(s, e));
      case DnsReply(name, reply, now, draws) =>
        var o := Resolver.AnswerStep(s.dns, name, reply, now);
        DispatchFrame(s.(dns := o.state, clock := now, found := s.found + Found(name, reply)), o.out, draws);
        DnsWellFormed(s, Resolver.Event<CrawlContext>.Answer(name, reply, now), Step(s, e));
      case RunNext =>
        assert Step(s, e).dns == s.dns;
      case _ =>
        assert Step(s, e).dns == s.dns;
    }
  }

  // ---------- Runs ----------

  ghost predicate Legal(run: seq<Event>)
    decreases |run|, 0
  {
    run == [] || (Legal(Front(run)) && Enabled(After(Front(run)), Last(run)))
  }

  ghost function After(run: seq<Event>): State
    requires Legal(run)
    decreases |run|, 1
  {
    if run == [] then Init() else Step(After(Front(run)), Last(run))
  }

  lemma {:induction false} WellFormedAlways(run: seq<Event>)
    requires Legal(run)
    ensures WellFormed(After(run))
  {
    if run != [] {
      WellFormedAlways(Front(run));
      StepWellFormed(After(Front(run)), Last(run));
    }
  }

  lemma {:induction false} TrackedAlways(run: seq<Event>, c: CrawlContext)
    requires Legal(run)
    ensures Tracked(After(run), c)
  {
    if run != [] {
      WellFormedAlways(Front(run));
      TrackedAlways(Front(run), c);
      if Last(run).Complete? {
        TrackedAlways(Front(run), Last(run).ctx);
      }
      StepTracked(After(Front(run)), Last(run), c);
    }
  }

  // ---------- Main results ----------

  /** A task is in exactly one place from its creation on, and nowhere before. */
  lemma ExactlyOnePlace(run: seq<Event>, c: CrawlContext)
    requires Legal(run)
    ensures Places(After(run), c) == if c in After(run).created then 1 else 0
  {
    TrackedAlways(run, c);
  }

  /** No task is reported twice, or before it is done, or when its DNS lookup failed. */
  lemma ReportedOnceWhenDone(run: seq<Event>, c: CrawlContext)
    requires Legal(run)
    ensures multiset(After(run).reported)[c] <= 1
    ensures c in After(run).reported ==> c in After(run).done && c !in After(run).dropped && c !in After(run).tasks
  {
    TrackedAlways(run, c);
  }

  /**
   curl holds a handle for a task exactly while the task list owns it unfinished, and one only: the
   context that a completion reads is always still owned, whatever polls rebuilt the list.
   */
  lemma HandlesMatchUnfinishedTasks(run: seq<Event>, c: CrawlContext)
    requires Legal(run)
    ensures var s := After(run); s.easies[c] == if c in s.tasks && c !in s.done then 1 else 0
  {
    TrackedAlways(run, c);
  }

  lemma {:induction false} ReverseConcat<T>(a: seq<T>, b: seq<T>)
    ensures Reverse(a + b) == Reverse(b) + Reverse(a)
  {
    if b == [] {
      assert a + b == a;
    } else {
      assert Front(a + b) == a + Front(b) && Last(a + b) == Last(b);
      ReverseConcat(a, Front(b));
      Assoc([Last(b)], Reverse(Front(b)), Reverse(a));
    }
  }

  lemma {:induction false} ReverseTwice<T>(a: seq<T>)
    ensures Reverse(Reverse(a)) == a
  {
    if a != [] {
      ReverseConcat([Last(a)], Reverse(Front(a)));
      ReverseTwice(Front(a));
      assert Front([Last(a)]) == [];
    }
  }

  lemma {:induction false} OthersReverse(a: seq<CrawlContext>, drop: set<CrawlContext>)
    ensures Others(Reverse(Others(a, drop)), drop) == Reverse(Others(a, drop))
    ensures Those(Reverse(Others(a, drop)), drop) == []
  {
    NoneDropped(a, drop);
    CountReverse(Others(a, drop));
    assert forall c | c in Reverse(Others(a, drop)) :: c in multiset(Reverse(Others(a, drop)));
    KeepsAll(Reverse(Others(a, drop)), drop);
  }

  lemma {:induction false} NoneDropped(a: seq<CrawlContext>, drop: set<CrawlContext>)
    ensures forall c | c in Others(a, drop) :: c !in drop && c in a
  {
    if a != [] {
      NoneDropped(Front(a), drop);
    }
  }

  lemma {:induction false} KeepsAll(a: seq<CrawlContext>, drop: set<CrawlContext>)
    requires forall c | c in a :: c !in drop
    ensures Others(a, drop) == a && Those(a, drop) == []
  {
    if a != [] {
      var front, last := Front(a), Last(a);
      assert a == front + [last];
      assert last in a && forall c | c in front :: c in a;
      KeepsAll(front, drop);
    }
  }

  /** A second poll with nothing newly done reports nothing and puts the unfinished tasks back in order. */
  lemma TwoPollsRestoreOrder(s: State)
    ensures ReportStep(ReportStep(s)).tasks == Others(s.tasks, s.done)
    ensures ReportStep(ReportStep(s)).reported == ReportStep(s).reported
  {
    OthersReverse(s.tasks, s.done);
    ReverseTwice(Others(s.tasks, s.done));
  }
}
