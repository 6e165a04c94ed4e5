/**
 The fetcher object of Fetcher/Fetcher.cpp: its methods, on real task objects, refine the steps of the
 pipeline state machine.
 */
module Fetcher {
  import opened Names
  import opened CrawlContext
  import opened Pipeline
  import Resolver
  import EventServer
  import Uri

  const MAX_TASKS_CNT := 32768

  /** One entry of a create request. */
  datatype TaskRequest = TaskRequest(uri: string)

  /** One message of curl: a transfer is over, with an error text if it failed. */
  datatype Message = Message(ctx: CrawlContext, error: Option<string>)

  /** What one add() reads from outside: the time, and the values of rand(). */
  datatype Moment = Moment(now: int, draws: seq<nat>)

  class Fetcher {
    const resolver: Resolver.Resolver<CrawlContext>
    const es: EventServer.EventServer<Work>
    var tasks: seq<CrawlContext>
    // The contexts of the easy handles registered with curl.
    var easies: multiset<CrawlContext>

    ghost var created: seq<CrawlContext>
    ghost var arriving: seq<CrawlContext>
    ghost var reported: seq<CrawlContext>
    ghost var dropped: seq<CrawlContext>
    ghost var found: set<(Host, Ip)>
    ghost var clock: int

    ghost function Done(): set<CrawlContext>
      reads this`created, created`done
    {
      set c | c in created && c.done
    }

    ghost function Ips(): map<CrawlContext, Ip>
      reads this`created, created`ip
    {
      map c | c in created && c.ip.Some? :: c.ip.value
    }

    /** The error text of every task. */
    ghost function Errors(): map<CrawlContext, string>
      reads this`created, created`error
    {
      map c | c in created :: c.error
    }

    ghost function Abs(): State
      reads this, resolver, es, created
    {
      State(created, arriving, resolver.Abs(), es.Abs(), tasks, easies, Done(), Ips(), reported, dropped, found, clock)
    }

    /** Every task the server can still reach is one it created. */
    ghost predicate Valid()
      reads this, resolver, es
    {
      && (forall c | c in arriving :: c in created)
      && CallbacksAmong(resolver.Abs(), created) && AnswersHaveAddresses(resolver.Abs())
      && (forall w | w in es.queue && w.Start? :: w.ctx in created)
      && (forall w | w in es.batch && w.Start? :: w.ctx in created)
      && (forall c | c in easies :: c in created)
      && (forall c | c in tasks :: c in created)
    }

    constructor ()
      ensures Valid() && Abs() == Init() && fresh(resolver) && fresh(es)
    {
      resolver := new Resolver.Resolver<CrawlContext>();
      es := new EventServer.EventServer<Work>();
      tasks, easies := [], multiset{};
      created, arriving, reported, dropped, found, clock := [], [], [], [], {}, 1;
    }

    /** The callback add() gives to the resolver. */
    method OnResolved(d: Delivery<CrawlContext>, draws: seq<nat>, ghost i: nat, draw: nat)
      requires Valid() && d.cb in created && draw == (if i < |draws| then draws[i] else 0)
      requires d.status == Ok ==> d.addrs != []
      modifies this`dropped, es, d.cb`done, d.cb`error, d.cb`ip
      ensures Valid() && Abs() == Pipeline.OnResolved(old(Abs()), d, draws, i)
      ensures Errors() == AfterDelivery(old(Errors()), d)
    {
      var ctx := d.cb;
      if d.status != Ok {
        ctx.done := true;
        ctx.error := d.status.msg;
        dropped := dropped + [ctx];
        assert Done() == old(Done()) + {ctx};
        assert Ips() == old(Ips());
      } else {
        ctx.ip := Some(d.addrs[draw % |d.addrs|]);
        es.AddAsync(Start(ctx));
        assert Done() == old(Done());
        assert Ips() == old(Ips())[ctx := Pick(d.addrs, draws, i)];
      }
    }

    /** The resolver runs the callbacks of one of its steps. */
    method RunCallbacks(out: seq<Delivery<CrawlContext>>, draws: seq<nat>)
      requires Valid() && forall d | d in out :: d.cb in created && (d.status == Ok ==> d.addrs != [])
      modifies this`dropped, es, (set d | d in out :: d.cb)`done, (set d | d in out :: d.cb)`error, (set d | d in out :: d.cb)`ip
      ensures Valid() && Abs() == Dispatch(old(Abs()), out, draws)
      ensures Errors() == AfterDeliveries(old(Errors()), out)
    {
      for i := 0 to |out|
        invariant Valid() && Abs() == Dispatch(old(Abs()), out[..i], draws)
        invariant Errors() == AfterDeliveries(old(Errors()), out[..i])
      {
        assert Front(out[..i + 1]) == out[..i];
        OnResolved(out[i], draws, i, if i < |draws| then draws[i] else 0);
      }
      assert out[..|out|] == out;
    }

    /** Fetcher::add for the next admitted task. */
    method Add(ctx: CrawlContext, now: int, draws: seq<nat>)
      requires Valid() && arriving != [] && ctx == arriving[0]
      modifies this`arriving, this`clock, this`dropped, resolver, es, ctx`done, ctx`error, ctx`ip
      ensures Valid() && Abs() == AddStep(old(Abs()), now, draws)
      ensures Errors() == AfterDeliveries(old(Errors()), Resolver.CallStep(old(resolver.Abs()), ctx.host, ctx, now).out)
    {
      var out := Call(ctx, now);
      RunCallbacks(out, draws);
    }

    /** The resolver's part of it. */
    method Call(ctx: CrawlContext, now: int) returns (out: seq<Delivery<CrawlContext>>)
      requires Valid() && arriving != [] && ctx == arriving[0]
      modifies this`arriving, this`clock, resolver
      ensures Valid() && out == Resolver.CallStep(old(resolver.Abs()), ctx.host, ctx, now).out
      ensures Abs() == old(Abs()).(dns := Resolver.CallStep(old(resolver.Abs()), ctx.host, ctx, now).state, clock := now,
                                   arriving := old(arriving)[1..])
      ensures forall d | d in out :: d.cb == ctx && (d.status == Ok ==> d.addrs != [])
    {
      CallKeepsCallbacks(resolver.Abs(), created, ctx, now);
      arriving := arriving[1..];
      clock := now;
      out := resolver.Resolve(ctx.host, ctx, now);
      assert Resolver.Outcome(resolver.Abs(), out) == Resolver.CallStep(old(resolver.Abs()), ctx.host, ctx, now);
    }

    method MakeContext(t: TaskRequest) returns (ctx: Option<CrawlContext>)
      ensures if ctx.Some? then fresh(ctx.value) && HostOf(t) == Some(ctx.value.host) && Blank([ctx.value]) else HostOf(t) == None
    {
      var host := HostOf(t);
      if host == None {
        return None;
      }
      var new_ctx := new CrawlContext(host.value);
      ctx := Some(new_ctx);
    }

    /** The contexts of a create request, or nothing when one of its URIs is invalid. */
    method MakeContexts(request: seq<TaskRequest>) returns (ctxs: Option<seq<CrawlContext>>)
      ensures ctxs.Some? <==> forall t | t in request :: HostOf(t).Some?
      ensures ctxs.Some? ==> |ctxs.value| == |request| && AreFor(ctxs.value, request)
      ensures ctxs.Some? ==> fresh(ctxs.value) && Blank(ctxs.value)
    {
      var made: seq<CrawlContext> := [];
      for i := 0 to |request|
        invariant |made| == i && AreFor(made, request)
        invariant fresh(made) && Blank(made)
      {
        var ctx := MakeContext(request[i]);
        if ctx == None {
          return None;
        }
        AreForSnoc(made, request, ctx.value);
        BlankSnoc(made, ctx.value);
        made := made + [ctx.value];
      }
      ctxs := Some(made);
    }

    /** The new contexts become known to the server. */
    ghost method AdmitAll(ctxs: seq<CrawlContext>)
      requires Valid() && Blank(ctxs) && Enabled(Abs(), Admit(ctxs))
      modifies this`created, this`arriving
      ensures Valid() && Abs() == Pipeline.Step(old(Abs()), Admit(ctxs))
    {
      created := created + ctxs;
      arriving := arriving + ctxs;
      assert Done() == old(Done());
      assert Ips() == old(Ips());
    }

    /** add() for every task of a request. */
    method AddEach(ctxs: seq<CrawlContext>, moments: seq<Moment>)
      requires Valid() && arriving == ctxs && |moments| == |ctxs|
      modifies this`arriving, this`clock, this`dropped, resolver, es, ctxs
      ensures Valid() && Abs() == AddAll(old(Abs()), moments)
    {
      for i := 0 to |ctxs|
        invariant Valid() && arriving == ctxs[i..] && Abs() == AddAll(old(Abs()), moments[..i])
      {
        assert Front(moments[..i + 1]) == moments[..i];
        AddTakesFirst(Abs(), moments[i].now, moments[i].draws);
        Add(ctxs[i], moments[i].now, moments[i].draws);
      }
      assert moments[..|moments|] == moments;
    }

    method AddRequest(ctxs: seq<CrawlContext>, moments: seq<Moment>)
      requires Valid() && arriving == [] && Blank(ctxs) && Enabled(Abs(), Admit(ctxs)) && |moments| == |ctxs|
      modifies this`created, this`arriving, this`clock, this`dropped, resolver, es, ctxs
      ensures Valid() && Abs() == AddAll(Pipeline.Step(old(Abs()), Admit(ctxs)), moments)
    {
      AdmitAll(ctxs);
      AddEach(ctxs, moments);
    }

    /**
     Fetcher::create_tasks_req. Either every task of the request is admitted and added, in order, or the
     request changes nothing.
     */
    method CreateTasks(request: seq<TaskRequest>, moments: seq<Moment>)
      returns (resp: Result<seq<CrawlContext>, string>)
      requires Valid() && arriving == [] && |moments| == |request|
      modifies this`created, this`arriving, this`clock, this`dropped, resolver, es
      ensures Valid()
      ensures resp.Success? <==> Acceptable(|old(tasks)|, request)
      ensures resp.Failure? ==> Abs() == old(Abs())
      ensures resp.Failure? ==>
                resp.error == if |old(tasks)| + |request| > 32768 then "Too many pending tasks" else "Invalid uri"
      ensures created == old(created) + if resp.Success? then resp.value else []
      ensures resp.Success? ==> |resp.value| == |request| && AreFor(resp.value, request) && Enabled(old(Abs()), Admit(resp.value))
      ensures resp.Success? ==> Abs() == AddAll(Pipeline.Step(old(Abs()), Admit(resp.value)), moments)
    {
      if |tasks| + |request| > MAX_TASKS_CNT {
        return Failure("Too many pending tasks");
      }
      var made := MakeContexts(request);
      if made == None {
        return Failure("Invalid uri");
      }
      AddRequest(made.value, moments);
      resp := Success(made.value);
    }

    /** The DNS thread's wake-up handler. */
    method OnDnsWakeup()
      requires Valid()
      modifies resolver
      ensures Valid() && Abs() == old(Abs()).(dns := Resolver.DrainStep(old(Abs()).dns).state)
    {
      resolver.EvCb();
      assert resolver.infos == old(resolver.infos);
    }

    /** A reply with its callbacks. */
    method AnswerQuery(name: Host, reply: Resolver.Reply, now: int, draws: seq<nat>)
      requires Valid() && name in resolver.infos && name in resolver.inflight
      requires reply.Found? ==> reply.addrs != []
      modifies this`clock, this`found, this`dropped, resolver, es
      modifies (set c | c in resolver.infos[name].cbs)`done, (set c | c in resolver.infos[name].cbs)`error
      modifies (set c | c in resolver.infos[name].cbs)`ip
      ensures Valid() && Abs() == ReplyStep(old(Abs()), name, reply, now, draws)
      ensures Errors() == AfterDeliveries(old(Errors()), Resolver.AnswerStep(old(resolver.Abs()), name, reply, now).out)
    {
      var out := TakeReply(name, reply, now);
      RunCallbacks(out, draws);
    }

    /** The resolver's part of it. */
    method TakeReply(name: Host, reply: Resolver.Reply, now: int) returns (out: seq<Delivery<CrawlContext>>)
      requires Valid() && name in resolver.infos && name in resolver.inflight
      requires reply.Found? ==> reply.addrs != []
      modifies this`clock, this`found, resolver
      ensures Valid() && out == Resolver.AnswerStep(old(resolver.Abs()), name, reply, now).out
      ensures Abs() == old(Abs()).(dns := Resolver.AnswerStep(old(resolver.Abs()), name, reply, now).state, clock := now,
                                   found := old(found) + Found(name, reply))
      ensures forall d | d in out :: d.cb in created && d.cb in old(resolver.infos[name].cbs)
      ensures forall d | d in out :: d.status == Ok ==> d.addrs != []
    {
      AnswerKeepsCallbacks(resolver.Abs(), created, name, reply, now);
      clock := now;
      found := found + Found(name, reply);
      out := resolver.OnReply(name, reply, now);
      assert Resolver.Outcome(resolver.Abs(), out) == Resolver.AnswerStep(old(resolver.Abs()), name, reply, now);
    }

    /** The reply handler. A failed reply gives its text to every task that waits for the name, and to no other. */
    method OnDnsReply(name: Host, reply: Resolver.Reply, now: int, draws: seq<nat>)
      requires Valid() && name in resolver.infos && name in resolver.inflight
      requires reply.Found? ==> reply.addrs != []
      modifies this`clock, this`found, this`dropped, resolver, es
      modifies (set c | c in resolver.infos[name].cbs)`done, (set c | c in resolver.infos[name].cbs)`error
      modifies (set c | c in resolver.infos[name].cbs)`ip
      ensures Valid() && Abs() == ReplyStep(old(Abs()), name, reply, now, draws)
      ensures forall c | c in created ::
                c.error == if reply.Failed? && c in old(resolver.infos[name].cbs) then reply.msg else old(c.error)
    {
      ghost var dns, errors := resolver.Abs(), Errors();
      AnswerQuery(name, reply, now, draws);
      forall c | c in created
        ensures c.error == if reply.Failed? && c in dns.infos[name].cbs then reply.msg else old(c.error)
      {
        TextAfterReply(errors, dns, name, reply, now, c);
        assert c.error == Errors()[c] && old(c.error) == errors[c];
      }
    }

    /** The server's side of a poll: ask the loop to report. */
    method RequestReport()
      requires Valid()
      modifies es
      ensures Valid() && Abs() == Pipeline.Step(old(Abs()), Poll)
    {
      es.AddAsync(Report);
    }

    /** Take the list apart from the back, and put the unfinished tasks back. */
    method TakeDone() returns (resp: seq<CrawlContext>)
      requires forall c | c in tasks :: c in created
      modifies this`tasks
      ensures resp == Reverse(Those(old(tasks), Done())) && tasks == Reverse(Others(old(tasks), Done()))
    {
      ghost var all, done := tasks, Done();
      resp := [];
      var busy: seq<CrawlContext> := [];
      while tasks != []
        invariant |tasks| <= |all| && tasks == all[..|tasks|] && Parts(all, done, resp, busy, tasks)
        decreases |tasks|
      {
        assert Last(tasks) in all;
        resp, busy := PopTask(all, done, resp, busy);
      }
      PartsEnd(all, done, resp, busy);
      tasks := busy;
    }

    /** One turn of that loop. */
    method PopTask(ghost all: seq<CrawlContext>, ghost done: set<CrawlContext>, resp: seq<CrawlContext>, busy: seq<CrawlContext>)
      returns (resp': seq<CrawlContext>, busy': seq<CrawlContext>)
      requires tasks != [] && Parts(all, done, resp, busy, tasks) && (Last(tasks).done <==> Last(tasks) in done)
      modifies this`tasks
      ensures tasks == Front(old(tasks)) && Parts(all, done, resp', busy', tasks)
    {
      PopBack(all, done, resp, busy, tasks);
      var ctx := tasks[|tasks| - 1];
      tasks := tasks[..|tasks| - 1];
      resp', busy' := resp, busy;
      if ctx.done {
        resp' := resp + [ctx];
      } else {
        busy' := busy + [ctx];
      }
    }

    /** The callback of a poll. */
    method GetDoneTasks() returns (resp: seq<CrawlContext>)
      requires Valid()
      modifies this`tasks, this`reported
      ensures Valid() && Abs() == ReportStep(old(Abs()))
      ensures reported == old(reported) + resp
    {
      OthersAmong(tasks, Done());
      resp := TakeDone();
      reported := reported + resp;
    }

    /** The loop callback that starts a transfer. */
    method StartTransfer(ctx: CrawlContext)
      requires Valid() && ctx in created
      modifies this`tasks, this`easies
      ensures Valid() && Abs() == Run(old(Abs()), Start(ctx))
    {
      easies := easies + multiset{ctx};
      tasks := tasks + [ctx];
    }

    /** The loop takes the next callback of its batch. */
    method TakeWork() returns (work: Work)
      requires Valid() && EventServer.Enabled(es.Abs(), EventServer.Event<Work>.RunNext)
      modifies es
      ensures Valid() && work == old(es.Abs()).batch[0] && (work.Start? ==> work.ctx in created)
      ensures Abs() == old(Abs()).(es := EventServer.Step(old(Abs()).es, EventServer.Event<Work>.RunNext))
    {
      work := es.TakeNext();
      assert es.Abs() == EventServer.Step(old(es.Abs()), EventServer.Event<Work>.RunNext);
    }

    /** The loop runs the next callback of its batch. */
    method RunNext() returns (resp: seq<CrawlContext>)
      requires Valid() && EventServer.Enabled(es.Abs(), EventServer.Event<Work>.RunNext)
      modifies this`tasks, this`easies, this`reported, es
      ensures Valid() && Abs() == Pipeline.Step(old(Abs()), Pipeline.RunNext)
      ensures reported == old(reported) + resp
    {
      resp := [];
      var work := TakeWork();
      match work {
        case Start(ctx) =>
          StartTransfer(ctx);
        case Report =>
          resp := GetDoneTasks();
      }
    }

    /** The transfer of a task is over, with an error text if it failed. */
    method Finish(ctx: CrawlContext, error: Option<string>)
      requires Valid() && ctx in created
      modifies ctx`done, ctx`error
      ensures Valid() && Abs() == old(Abs()).(done := old(Done()) + {ctx})
      ensures ctx.done && Errors() == AfterMessage(old(Errors()), ctx, error)
    {
      if error.Some? {
        ctx.error := error.value;
      }
      ctx.done := true;
      assert Done() == old(Done()) + {ctx};
      assert Ips() == old(Ips()) && resolver.Abs() == old(resolver.Abs()) && es.Abs() == old(es.Abs());
    }

    method RemoveHandle(ctx: CrawlContext)
      requires Valid()
      modifies this`easies
      ensures Valid() && Abs() == old(Abs()).(easies := old(easies) - multiset{ctx})
    {
      StillAmong(easies, ctx, created);
      easies := easies - multiset{ctx};
      assert Done() == old(Done()) && Ips() == old(Ips());
    }

    method Complete(ctx: CrawlContext, error: Option<string>)
      requires Valid() && ctx in easies
      modifies this`easies, ctx`done, ctx`error
      ensures Valid() && Abs() == Completed(old(Abs()), ctx)
      ensures ctx.done && Errors() == AfterMessage(old(Errors()), ctx, error)
    {
      RemoveHandle(ctx);
      Finish(ctx, error);
    }

    /** One turn of the loop below. */
    method CompleteMessage(ghost s: State, ghost errors: map<CrawlContext, string>, msgs: seq<Message>, i: nat)
      requires Valid() && i < |msgs| && multiset(Contexts(msgs)) <= s.easies
      requires Abs() == CompleteAll(s, Contexts(msgs)[..i]) && Errors() == AfterMessages(errors, msgs[..i])
      modifies this`easies, msgs[i].ctx`done, msgs[i].ctx`error
      ensures Valid() && Abs() == CompleteAll(s, Contexts(msgs)[..i + 1]) && Errors() == AfterMessages(errors, msgs[..i + 1])
    {
      NextContext(s, Contexts(msgs), i);
      AfterMessagesSnoc(errors, msgs, i);
      Complete(msgs[i].ctx, msgs[i].error);
    }

    /**
     Finished transfers, as curl reports them: with an error text if they failed. Every task then has the text of its
     last message that has one; nothing else of any task changes but that these are done.
     */
    method CheckMultiInfo(msgs: seq<Message>)
      requires Valid() && multiset(Contexts(msgs)) <= easies
      modifies this`easies, (set m | m in msgs :: m.ctx)`done, (set m | m in msgs :: m.ctx)`error
      ensures Valid() && Abs() == CompleteAll(old(Abs()), Contexts(msgs))
      ensures Errors() == WithLastTexts(old(Errors()), msgs)
    {
      ghost var s, errors := Abs(), Errors();
      KnownContexts(msgs, easies, created);
      TextsAfterMessages(errors, msgs);
      for i := 0 to |msgs|
        invariant Valid() && Abs() == CompleteAll(s, Contexts(msgs)[..i])
        invariant Errors() == AfterMessages(errors, msgs[..i])
      {
        CompleteMessage(s, errors, msgs, i);
      }
      assert Contexts(msgs)[..|msgs|] == Contexts(msgs) && msgs[..|msgs|] == msgs;
    }
  }

  // ---------- Helpers ----------

  /** A failed lookup gives its text to the task. */
  ghost function AfterDelivery(errors: map<CrawlContext, string>, d: Delivery<CrawlContext>): map<CrawlContext, string> {
    if d.status == Ok then errors else errors[d.cb := d.status.msg]
  }

  ghost function AfterDeliveries(errors: map<CrawlContext, string>, out: seq<Delivery<CrawlContext>>): map<CrawlContext, string> {
    if out == [] then errors else AfterDelivery(AfterDeliveries(errors, Front(out)), Last(out))
  }

  lemma {:induction false} TextAfterDeliveries(errors: map<CrawlContext, string>, cbs: seq<CrawlContext>, name: Host,
    addrs: seq<Ip>, st: Status, c: CrawlContext)
    requires c in errors
    ensures var after := AfterDeliveries(errors, Deliver(cbs, name, addrs, st));
            c in after && after[c] == if st != Ok && c in cbs then st.msg else errors[c]
  {
    if cbs != [] {
      var front, last := Front(cbs), Last(cbs);
      TextAfterDeliveries(errors, front, name, addrs, st, c);
      assert cbs == front + [last];
      DeliverSnoc(front, last, name, addrs, st);
      assert Front(Deliver(cbs, name, addrs, st)) == Deliver(front, name, addrs, st);
    }
  }

  /** After a failed reply every waiting task has its text; no other task's text changes. */
  lemma TextAfterReply(errors: map<CrawlContext, string>, dns: Resolver.State<CrawlContext>, name: Host,
    reply: Resolver.Reply, now: int, c: CrawlContext)
    requires c in errors && name in dns.infos
    ensures var after := AfterDeliveries(errors, Resolver.AnswerStep(dns, name, reply, now).out);
            c in after && after[c] == if reply.Failed? && c in dns.infos[name].cbs then reply.msg else errors[c]
  {
    var info := Resolver.Answered(dns.infos[name], reply, now);
    TextAfterDeliveries(errors, info.cbs, name, info.addrs, info.status, c);
  }

  ghost function AfterMessage(errors: map<CrawlContext, string>, ctx: CrawlContext, error: Option<string>): map<CrawlContext, string> {
    if error.Some? then errors[ctx := error.value] else errors
  }

  ghost function AfterMessages(errors: map<CrawlContext, string>, msgs: seq<Message>): map<CrawlContext, string> {
    if msgs == [] then errors else AfterMessage(AfterMessages(errors, Front(msgs)), Last(msgs).ctx, Last(msgs).error)
  }

  lemma AfterMessagesSnoc(errors: map<CrawlContext, string>, msgs: seq<Message>, i: nat)
    requires i < |msgs|
    ensures AfterMessages(errors, msgs[..i + 1]) == AfterMessage(AfterMessages(errors, msgs[..i]), msgs[i].ctx, msgs[i].error)
  {
    assert Front(msgs[..i + 1]) == msgs[..i];
  }

  /** The text of a task's last message that has one. */
  function LastText(msgs: seq<Message>, c: CrawlContext): Option<string> {
    if msgs == [] then None
    else if Last(msgs).ctx == c && Last(msgs).error.Some? then Last(msgs).error
    else LastText(Front(msgs), c)
  }

  /** Whatever curl reports was created. */
  lemma KnownContexts(msgs: seq<Message>, easies: multiset<CrawlContext>, created: seq<CrawlContext>)
    requires multiset(Contexts(msgs)) <= easies && forall c | c in easies :: c in created
    ensures forall m | m in msgs :: m.ctx in created
  {
    forall i | 0 <= i < |msgs|
      ensures msgs[i].ctx in created
    {
      assert Contexts(msgs)[i] in multiset(Contexts(msgs));
    }
  }

  /** The texts once all these messages are dealt with. */
  ghost function WithLastTexts(errors: map<CrawlContext, string>, msgs: seq<Message>): map<CrawlContext, string> {
    map c | c in errors :: if LastText(msgs, c).Some? then LastText(msgs, c).value else errors[c]
  }

  lemma {:induction false} TextsAfterMessages(errors: map<CrawlContext, string>, msgs: seq<Message>)
    requires forall m | m in msgs :: m.ctx in errors
    ensures AfterMessages(errors, msgs) == WithLastTexts(errors, msgs)
  {
    if msgs != [] {
      assert Last(msgs) in msgs && forall m | m in Front(msgs) :: m in msgs;
      TextsAfterMessages(errors, Front(msgs));
    }
  }

  /** The host that a task's URI names, if the URI is valid. */
  function HostOf(t: TaskRequest): Option<Host> {
    match Uri.Make(t.uri)
    case Success(u) => Some(Host(u.host))
    case Failure(_) => None
  }

  /**
   A task is for the host of its URI's greatest decomposition, and is refused only if there is none or the port is too
   large; the empty URI is accepted, for the host without a name.
   */
  lemma HostOfText(text: string)
    ensures HostOf(TaskRequest("")) == Some(Host(""))
    ensures text != "" && Uri.Match(text) == None ==> HostOf(TaskRequest(text)) == None
    ensures Uri.Match(text).Some? ==>
              var g := Uri.Match(text).value;
              && Uri.Decomposes(g, text)
              && (forall h | Uri.Decomposes(h, text) :: h == g || Uri.Loses(h.authority, g.authority))
              && HostOf(TaskRequest(text)) == if Uri.PortTooLarge(g) then None else Some(Host(g.authority.place.host))
  {
    Uri.EmptyTextIsAccepted();
    Uri.MatchIsGreatestDecomposition(text);
    if Uri.Match(text).Some? {
      Uri.MissingPartsAreFilledIn(text, Uri.Match(text).value);
    }
  }

  /** For a URI written from its parts, it is the host part. */
  lemma HostOfPlain(u: Uri.Uri)
    requires Uri.Plain(u)
    ensures HostOf(TaskRequest(Uri.Render(Uri.GroupsOf(u)))) == Some(Host(u.host))
  {
    Uri.RoundTrip(u);
  }

  /** And for an everyday one, what stands between the slashes. */
  lemma HostOfEverydayUri(scheme: string, host: string, path: string)
    requires scheme == "http" || scheme == "https"
    requires host != "" && forall c | c in host :: Uri.HostLetter(c)
    requires path == "" || (path[0] == '/' && forall c | c in path :: Uri.PathLetter(c))
    ensures HostOf(TaskRequest(scheme + "://" + (host + path))) == Some(Host(host))
  {
    Uri.EverydayUri(scheme, host, path);
  }

  predicate Acceptable(pending: nat, request: seq<TaskRequest>) {
    pending + |request| <= MAX_TASKS_CNT && forall t | t in request :: HostOf(t).Some?
  }

  /** Distinct contexts for the first requested tasks, each with the host its URI names. */
  ghost predicate AreFor(ctxs: seq<CrawlContext>, request: seq<TaskRequest>) {
    && |ctxs| <= |request|
    && (forall i | 0 <= i < |ctxs| :: HostOf(request[i]) == Some(ctxs[i].host))
    && (forall i, j | 0 <= i < j < |ctxs| :: ctxs[i] != ctxs[j])
  }

  ghost predicate Blank(ctxs: seq<CrawlContext>)
    reads ctxs
  {
    forall c | c in ctxs :: !c.done && c.ip == None && c.error == "" && c.GetBody() == Body([], false)
  }

  lemma AreForSnoc(ctxs: seq<CrawlContext>, request: seq<TaskRequest>, ctx: CrawlContext)
    requires AreFor(ctxs, request) && ctx !in ctxs && |ctxs| < |request| && HostOf(request[|ctxs|]) == Some(ctx.host)
    ensures AreFor(ctxs + [ctx], request)
  {
    var more := ctxs + [ctx];
    assert forall i | 0 <= i < |ctxs| :: more[i] == ctxs[i];
    assert more[|ctxs|] == ctx;
  }

  lemma StillAmong(easies: multiset<CrawlContext>, ctx: CrawlContext, created: seq<CrawlContext>)
    requires forall c | c in easies :: c in created
    ensures forall c | c in easies - multiset{ctx} :: c in created
  {
    forall c | c in easies - multiset{ctx}
      ensures c in created
    {
      assert easies[c] >= (easies - multiset{ctx})[c] > 0;
    }
  }

  lemma BlankSnoc(ctxs: seq<CrawlContext>, ctx: CrawlContext)
    requires Blank(ctxs) && Blank([ctx])
    ensures Blank(ctxs + [ctx])
  {
    assert ctx in [ctx];
  }

  /** add() for one arrival after the other. */
  ghost function AddAll(s: State, moments: seq<Moment>): (t: State)
    ensures t.created == s.created
    ensures |moments| <= |s.arriving| ==> t.arriving == s.arriving[|moments|..]
  {
    if moments == [] then s
    else
      var t := AddAll(s, Front(moments));
      if t.arriving == [] then t
      else
        AddTakesFirst(t, Last(moments).now, Last(moments).draws);
        AddStep(t, Last(moments).now, Last(moments).draws)
  }

  lemma AddTakesFirst(s: State, now: int, draws: seq<nat>)
    requires s.arriving != []
    ensures AddStep(s, now, draws).arriving == s.arriving[1..] && AddStep(s, now, draws).created == s.created
  {
    var ctx := s.arriving[0];
    var o := Resolver.CallStep(s.dns, ctx.host, ctx, now);
    DispatchFrame(s.(arriving := s.arriving[1..], dns := o.state, clock := now), o.out, draws);
  }

  ghost predicate CallbacksAmong(dns: Resolver.State<CrawlContext>, created: seq<CrawlContext>) {
    forall n, c | n in dns.infos && c in dns.infos[n].cbs :: c in created
  }

  /** No entry holds a success without addresses, which is what the reply handler is promised. */
  ghost predicate AnswersHaveAddresses(dns: Resolver.State<CrawlContext>) {
    forall n | n in dns.infos && dns.infos[n].phase == Resolver.Done && dns.infos[n].status == Ok ::
      dns.infos[n].addrs != []
  }

  lemma CallKeepsCallbacks(dns: Resolver.State<CrawlContext>, created: seq<CrawlContext>, ctx: CrawlContext, now: int)
    requires CallbacksAmong(dns, created) && AnswersHaveAddresses(dns) && ctx in created
    ensures var o := Resolver.CallStep(dns, ctx.host, ctx, now);
            && CallbacksAmong(o.state, created) && AnswersHaveAddresses(o.state)
            && forall d | d in o.out :: d.cb == ctx && (d.status == Ok ==> d.addrs != [])
  {
  }

  lemma AnswerKeepsCallbacks(dns: Resolver.State<CrawlContext>, created: seq<CrawlContext>, name: Host, reply: Resolver.Reply, now: int)
    requires CallbacksAmong(dns, created) && AnswersHaveAddresses(dns) && name in dns.infos
    requires reply.Found? ==> reply.addrs != []
    ensures var o := Resolver.AnswerStep(dns, name, reply, now);
            && CallbacksAmong(o.state, created) && AnswersHaveAddresses(o.state)
            && forall d | d in o.out :: d.cb in created && d.cb in dns.infos[name].cbs && (d.status == Ok ==> d.addrs != [])
  {
  }

  /** The next context that curl reports is still registered. */
  lemma NextContext(s: State, ctxs: seq<CrawlContext>, i: nat)
    requires i < |ctxs| && multiset(ctxs) <= s.easies
    ensures ctxs[i] in CompleteAll(s, ctxs[..i]).easies
    ensures CompleteAll(s, ctxs[..i + 1]) == Completed(CompleteAll(s, ctxs[..i]), ctxs[i])
  {
    assert ctxs == ctxs[..i] + [ctxs[i]] + ctxs[i + 1..];
    assert Front(ctxs[..i + 1]) == ctxs[..i];
    CompletedEasies(s, ctxs[..i]);
  }

  lemma {:induction false} CompletedEasies(s: State, ctxs: seq<CrawlContext>)
    ensures CompleteAll(s, ctxs).easies == s.easies - multiset(ctxs)
  {
    if ctxs != [] {
      var t := CompleteAll(s, Front(ctxs));
      CompletedEasies(s, Front(ctxs));
      MultisetSnoc(ctxs);
      MinusTwice(s.easies, multiset(Front(ctxs)), Last(ctxs));
      assert Completed(t, Last(ctxs)).easies == t.easies - multiset{Last(ctxs)};
    }
  }

  lemma MultisetSnoc(ctxs: seq<CrawlContext>)
    requires ctxs != []
    ensures multiset(ctxs) == multiset(Front(ctxs)) + multiset{Last(ctxs)}
  {
    assert ctxs == Front(ctxs) + [Last(ctxs)];
  }

  lemma MinusTwice(a: multiset<CrawlContext>, b: multiset<CrawlContext>, c: CrawlContext)
    ensures a - b - multiset{c} == a - (b + multiset{c})
  {
  }

  /** The unfinished tasks, reversed, are among the tasks. */
  lemma OthersAmong(tasks: seq<CrawlContext>, done: set<CrawlContext>)
    ensures forall c | c in Reverse(Others(tasks, done)) :: c in tasks
  {
    forall c | c in Reverse(Others(tasks, done))
      ensures c in tasks
    {
      CountReverse(Others(tasks, done));
      assert c in multiset(Reverse(Others(tasks, done)));
      NoneDropped(tasks, done);
    }
  }

  /** The loop of a poll: with what is left in the list, the two lists it builds come out reversed. */
  ghost predicate Parts(all: seq<CrawlContext>, done: set<CrawlContext>,
    resp: seq<CrawlContext>, busy: seq<CrawlContext>, rest: seq<CrawlContext>)
  {
    && resp + Reverse(Those(rest, done)) == Reverse(Those(all, done))
    && busy + Reverse(Others(rest, done)) == Reverse(Others(all, done))
  }

  lemma PopBack(all: seq<CrawlContext>, done: set<CrawlContext>,
    resp: seq<CrawlContext>, busy: seq<CrawlContext>, rest: seq<CrawlContext>)
    requires rest != [] && Parts(all, done, resp, busy, rest)
    ensures Last(rest) in done ==> Parts(all, done, resp + [Last(rest)], busy, Front(rest))
    ensures Last(rest) !in done ==> Parts(all, done, resp, busy + [Last(rest)], Front(rest))
  {
    MoveLast(resp, Those(Front(rest), done), Last(rest), Last(rest) in done);
    MoveLast(busy, Others(Front(rest), done), Last(rest), Last(rest) !in done);
  }

  lemma PartsEnd(all: seq<CrawlContext>, done: set<CrawlContext>, resp: seq<CrawlContext>, busy: seq<CrawlContext>)
    requires Parts(all, done, resp, busy, [])
    ensures resp == Reverse(Those(all, done)) && busy == Reverse(Others(all, done))
  {
    assert resp + [] == resp && busy + [] == busy;
  }

  lemma MoveLast(acc: seq<CrawlContext>, rest: seq<CrawlContext>, ctx: CrawlContext, take: bool)
    ensures acc + Reverse(rest + if take then [ctx] else []) == (if take then acc + [ctx] else acc) + Reverse(rest)
  {
    if take {
      assert Front(rest + [ctx]) == rest;
      Assoc(acc, [ctx], Reverse(rest));
    } else {
      assert rest + [] == rest;
    }
  }

  function Contexts(msgs: seq<Message>): seq<CrawlContext> {
    seq(|msgs|, i requires 0 <= i < |msgs| => msgs[i].ctx)
  }

  /** The completions of one call, one after the other. */
  ghost function CompleteAll(s: State, ctxs: seq<CrawlContext>): State {
    if ctxs == [] then s else Completed(CompleteAll(s, Front(ctxs)), Last(ctxs))
  }
}
