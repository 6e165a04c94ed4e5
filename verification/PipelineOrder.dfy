/** In which order tasks are resolved, listed and reported, and which address each of them draws. */
module PipelineOrder {
  import opened Names
  import opened CrawlContext
  import opened Pipeline
  import opened PipelineProgress
  import PipelineDns
  import Resolver
  import EventServer

  // ---------- Into the resolver ----------

  /** The tasks handed to the resolver. */
  function Called(log: seq<Resolver.Event<CrawlContext>>): seq<CrawlContext> {
    if log == [] then [] else Called(Front(log)) + if Last(log).Call? then [Last(log).cb] else []
  }

  lemma CalledSnoc(log: seq<Resolver.Event<CrawlContext>>, d: Resolver.Event<CrawlContext>)
    ensures Called(log + [d]) == Called(log) + if d.Call? then [d.cb] else []
  {
    assert Front(log + [d]) == log;
  }

  lemma ListsAfter(s: State, e: Event)
    requires Enabled(s, e)
    ensures var t := Step(s, e);
            && (!e.RunNext? ==> t.tasks == s.tasks)
            && match e
            case Admit(ctxs) => t.created == s.created + ctxs && t.arriving == s.arriving + ctxs
            case AddNext(_, _) => t.created == s.created && t.arriving == s.arriving[1..]
            case _ => t.created == s.created && t.arriving == s.arriving
  {
    match e {
      case AddNext(now, draws) =>
        var ctx := s.arriving[0];
        var o := Resolver.CallStep(s.dns, ctx.host, ctx, now);
        DispatchFrame(s.(arriving := s.arriving[1..], dns := o.state, clock := now), o.out, draws);
      case DnsReply(name, reply, now, draws) =>
        var o := Resolver.AnswerStep(s.dns, name, reply, now);
        DispatchFrame(s.(dns := o.state, clock := now, found := s.found + Found(name, reply)), o.out, draws);
      case _ =>
    }
  }

  /** A step calls the resolver for the first arrival or for nobody. */
  lemma CalledByStep(called: seq<CrawlContext>, s: State, e: Event)
    requires Enabled(s, e) && s.created == called + s.arriving
    ensures Step(s, e).created == called + (if e.AddNext? then [s.arriving[0]] else []) + Step(s, e).arriving
  {
    ListsAfter(s, e);
    match e {
      case Admit(ctxs) => Assoc(called, s.arriving, ctxs);
      case _ =>
    }
    assert called + [] == called;
  }

  lemma CalledInRun(run: seq<Event>)
    requires Legal(run) && run != []
    ensures var first := if Last(run).AddNext? then [After(Front(run)).arriving[0]] else [];
            Called(PipelineDns.DnsRun(run)) == Called(PipelineDns.DnsRun(Front(run))) + first
  {
    var d := PipelineDns.DnsEvent(After(Front(run)), Last(run));
    if d.Some? {
      CalledSnoc(PipelineDns.DnsRun(Front(run)), d.value);
    }
  }

  /** The resolver is called once for every task, in the order in which the tasks were created. */
  lemma {:induction false} ResolvedInCreationOrder(run: seq<Event>)
    requires Legal(run)
    ensures After(run).created == Called(PipelineDns.DnsRun(run)) + After(run).arriving
  {
    if run != [] {
      ResolvedInCreationOrder(Front(run));
      CalledInRun(run);
      CalledByStep(Called(PipelineDns.DnsRun(Front(run))), After(Front(run)), Last(run));
    }
  }

  // ---------- Addresses ----------

  lemma {:induction false} DrawDecides(s: State, cbs: seq<CrawlContext>, n: Host, addrs: seq<Ip>, draws: seq<nat>, i: nat)
    requires addrs != [] && i < |cbs| && i < |draws| && forall j | i < j < |cbs| :: cbs[j] != cbs[i]
    ensures var t := Dispatch(s, Deliver(cbs, n, addrs, Ok), draws);
            cbs[i] in t.ips && t.ips[cbs[i]] == addrs[draws[i] % |addrs|]
  {
    assert Front(Deliver(cbs, n, addrs, Ok)) == Deliver(Front(cbs), n, addrs, Ok);
    if i < |cbs| - 1 {
      DrawDecides(s, Front(cbs), n, addrs, draws, i);
    }
  }

  lemma OneOfEach(cbs: seq<CrawlContext>, i: nat, j: nat)
    requires i < j < |cbs| && multiset(cbs)[cbs[i]] <= 1
    ensures cbs[i] != cbs[j]
  {
    assert cbs == cbs[..j] + cbs[j..];
    assert cbs[i] in multiset(cbs[..j]) && cbs[j] in multiset(cbs[j..]);
  }

  /** On a successful reply the waiting tasks get the addresses that their draws select. */
  lemma DrawsSelectAddresses(run: seq<Event>, name: Host, addrs: seq<Ip>, ttl: int, now: int, draws: seq<nat>, i: nat)
    requires Legal(run) && Enabled(After(run), DnsReply(name, Resolver.Found(addrs, ttl), now, draws))
    requires i < |Resolver.Lookup(After(run).dns, name).cbs| && i < |draws|
    ensures var c := Resolver.Lookup(After(run).dns, name).cbs[i];
            var t := Step(After(run), DnsReply(name, Resolver.Found(addrs, ttl), now, draws));
            c in t.ips && t.ips[c] == addrs[draws[i] % |addrs|]
  {
    var s, reply := After(run), Resolver.Found(addrs, ttl);
    var cbs: seq<CrawlContext> := Resolver.Lookup(s.dns, name).cbs;
    var o := Resolver.AnswerStep(s.dns, name, reply, now);
    WellFormedAlways(run);
    TrackedAlways(run, cbs[i]);
    assert cbs[i] in cbs && cbs[i].host == name;
    assert Waiting(s, cbs[i]) <= Places(s, cbs[i]) <= 1;
    forall j | i < j < |cbs|
      ensures cbs[j] != cbs[i]
    {
      OneOfEach(cbs, i, j);
    }
    DrawDecides(s.(dns := o.state, clock := now, found := s.found + Found(name, reply)), cbs, name, addrs, draws, i);
  }

  // ---------- Into the list and out of it ----------

  /** The task whose transfer a step starts. */
  function StartedBy(s: State, e: Event): seq<CrawlContext>
    requires Enabled(s, e)
  {
    if e.RunNext? && s.es.batch[0].Start? then [s.es.batch[0].ctx] else []
  }

  /** The tasks whose transfers are started in the course of `more`. */
  ghost function Started(run: seq<Event>, more: seq<Event>): seq<CrawlContext>
    requires Legal(run + more)
  {
    if more == [] then []
    else
      assert Front(run + more) == run + Front(more);
      Started(run, Front(more)) + StartedBy(After(run + Front(more)), Last(more))
  }

  lemma ListedByStep(s: State, e: Event)
    requires Enabled(s, e) && !AnswersPoll(s, e)
    ensures Step(s, e).tasks == s.tasks + StartedBy(s, e)
  {
    if !e.RunNext? {
      ListsAfter(s, e);
    }
  }

  /** Until a poll is answered, the list grows by the started tasks, in the order of their starts. */
  lemma {:induction false} ListedInStartOrder(run: seq<Event>, more: seq<Event>)
    requires Legal(run) && Legal(run + more) && !Reports(run, more)
    ensures After(run + more).tasks == After(run).tasks + Started(run, more)
  {
    if more == [] {
      assert run + more == run;
    } else {
      assert Front(run + more) == run + Front(more) && Last(run + more) == Last(more);
      var s := After(run + Front(more));
      ListedInStartOrder(run, Front(more));
      ListedByStep(s, Last(more));
      Assoc(After(run).tasks, Started(run, Front(more)), StartedBy(s, Last(more)));
    }
  }

  lemma {:induction false} ReverseAt<T>(s: seq<T>, k: nat)
    requires k < |s|
    ensures |Reverse(s)| == |s| && Reverse(s)[k] == s[|s| - 1 - k]
  {
    if |s| == 1 {
      assert Reverse(Front(s)) == [];
    } else {
      ReverseAt(Front(s), if k == 0 then 0 else k - 1);
    }
  }

  lemma {:induction false} ThoseConcat(a: seq<CrawlContext>, b: seq<CrawlContext>, keep: set<CrawlContext>)
    ensures Those(a + b, keep) == Those(a, keep) + Those(b, keep)
  {
    if b == [] {
      assert a + b == a;
    } else {
      assert Front(a + b) == a + Front(b) && Last(a + b) == Last(b);
      ThoseConcat(a, Front(b), keep);
    }
  }

  lemma {:induction false} OthersConcat(a: seq<CrawlContext>, b: seq<CrawlContext>, drop: set<CrawlContext>)
    ensures Others(a + b, drop) == Others(a, drop) + Others(b, drop)
  {
    if b == [] {
      assert a + b == a;
    } else {
      assert Front(a + b) == a + Front(b) && Last(a + b) == Last(b);
      OthersConcat(a, Front(b), drop);
    }
  }

  lemma BothHalvesBackwards(a: seq<CrawlContext>, b: seq<CrawlContext>, done: set<CrawlContext>)
    ensures Reverse(Those(a + b, done)) == Reverse(Those(b, done)) + Reverse(Those(a, done))
    ensures Reverse(Others(a + b, done)) == Reverse(Others(b, done)) + Reverse(Others(a, done))
  {
    ThoseConcat(a, b, done);
    OthersConcat(a, b, done);
    ReverseConcat(Those(a, done), Those(b, done));
    ReverseConcat(Others(a, done), Others(b, done));
  }

  lemma AnswerTo(s: State, tasks: seq<CrawlContext>)
    requires s.reported == []
    ensures ReportStep(s.(tasks := tasks)).reported == Reverse(Those(tasks, s.done))
    ensures ReportStep(s.(tasks := tasks)).tasks == Reverse(Others(tasks, s.done))
  {
    assert [] + Reverse(Those(tasks, s.done)) == Reverse(Those(tasks, s.done));
  }

  /** A poll deals with the later part of the list first: its answer, and the list it leaves, run backwards. */
  lemma PollRunsBackwards(s: State, a: seq<CrawlContext>, b: seq<CrawlContext>)
    requires s.reported == []
    ensures var all, first, second := ReportStep(s.(tasks := a + b)), ReportStep(s.(tasks := b)), ReportStep(s.(tasks := a));
            all.reported == first.reported + second.reported && all.tasks == first.tasks + second.tasks
  {
    BothHalvesBackwards(a, b, s.done);
    AnswerTo(s, a);
    AnswerTo(s, b);
    AnswerTo(s, a + b);
  }

  /** An answer to a poll begins with the tasks started since the last one, the latest first; the older ones follow. */
  lemma AnsweredNewestFirst(run: seq<Event>, more: seq<Event>)
    requires Legal(run) && Legal(run + more) && !Reports(run, more) && Enabled(After(run + more), RunNext)
    requires AnswersPoll(After(run + more), RunNext)
    ensures var s, before := After(run + more), After(run).tasks;
            Step(s, RunNext).reported ==
            s.reported + (Reverse(Those(Started(run, more), s.done)) + Reverse(Those(before, s.done)))
  {
    var s, before := After(run + more), After(run).tasks;
    ListedInStartOrder(run, more);
    BothHalvesBackwards(before, Started(run, more), s.done);
  }
}
