/**
 The c-ares resolver of base/Ares.cpp: no expiry, and an entry stays new until the worker drains it,
 so several calls before that drain launch several queries for one name.
 */
module Ares {
  import opened Names

  datatype Phase = New | InProcessing | Done

  datatype Info<+Cb> = Info(phase: Phase, cbs: seq<Cb>, status: Status, addrs: seq<Ip>)

  /** `inflight` is the environment's part: queries given to c-ares and not answered. */
  datatype State<Cb> = State(infos: map<Host, Info<Cb>>, tasks: seq<Host>, inflight: multiset<Host>)

  datatype Reply = Success(addrs: seq<Ip>) | Failure(msg: string)

  datatype Event<+Cb> = Call(name: Host, cb: Cb) | Drain | Answer(name: Host, reply: Reply)

  datatype Outcome<Cb> = Outcome(state: State<Cb>, out: seq<Delivery<Cb>>)

  function Fresh<Cb>(): Info<Cb> {
    Info(New, [], Ok, [])
  }

  function Lookup<Cb>(s: State<Cb>, name: Host): Info<Cb> {
    if name in s.infos then s.infos[name] else Fresh()
  }

  function Init<Cb>(): State<Cb> {
    State(map[], [], multiset{})
  }

  function CallStep<Cb>(s: State<Cb>, name: Host, cb: Cb): Outcome<Cb> {
    var info := Lookup(s, name);
    match info.phase
    case New =>
      Outcome(s.(infos := s.infos[name := info.(cbs := info.cbs + [cb])], tasks := s.tasks + [name]), [])
    case InProcessing =>
      Outcome(s.(infos := s.infos[name := info.(cbs := info.cbs + [cb])]), [])
    case Done =>
      Outcome(s.(infos := s.infos[name := info]), [Delivery(cb, name, info.addrs, info.status)])
  }

  /** The entries after the worker went through `tasks`. */
  function Launched<Cb>(infos: map<Host, Info<Cb>>, tasks: seq<Host>): map<Host, Info<Cb>> {
    map n | n in infos :: if n in tasks then infos[n].(phase := InProcessing) else infos[n]
  }

  lemma LaunchedSnoc<Cb>(infos: map<Host, Info<Cb>>, tasks: seq<Host>, t: Host)
    requires t in infos
    ensures Launched(infos, tasks + [t]) ==
            Launched(infos, tasks)[t := Launched(infos, tasks)[t].(phase := InProcessing)]
  {
  }

  function DrainStep<Cb>(s: State<Cb>): Outcome<Cb> {
    Outcome(State(Launched(s.infos, s.tasks), [], s.inflight + multiset(s.tasks)), [])
  }

  /** A success appends its addresses to those already there; a failure leaves them. */
  function Answered<Cb>(info: Info<Cb>, reply: Reply): Info<Cb> {
    match reply
    case Success(addrs) => info.(phase := Done, status := Ok, addrs := info.addrs + addrs)
    case Failure(msg) => info.(phase := Done, status := Error(msg))
  }

  function AnswerStep<Cb>(s: State<Cb>, name: Host, reply: Reply): Outcome<Cb> {
    var info := Answered(Lookup(s, name), reply);
    Outcome(s.(infos := s.infos[name := info.(cbs := [])], inflight := s.inflight - multiset{name}),
            Deliver(info.cbs, name, info.addrs, info.status))
  }

  function Step<Cb>(s: State<Cb>, e: Event<Cb>): Outcome<Cb> {
    match e
    case Call(name, cb) => CallStep(s, name, cb)
    case Drain => DrainStep(s)
    case Answer(name, reply) => AnswerStep(s, name, reply)
  }

  // ---------- Runs ----------

  function After<Cb>(run: seq<Event<Cb>>): State<Cb> {
    if run == [] then Init() else Step(After(Front(run)), Last(run)).state
  }

  function Log<Cb>(run: seq<Event<Cb>>): seq<Delivery<Cb>> {
    if run == [] then [] else Log(Front(run)) + Step(After(Front(run)), Last(run)).out
  }

  /** c-ares answers only queries it was given, each once, in any order. */
  ghost predicate Legal<Cb>(run: seq<Event<Cb>>) {
    run == [] ||
    (Legal(Front(run)) && (Last(run).Answer? ==> Last(run).name in After(Front(run)).inflight))
  }

  // ---------- The history of one name ----------

  /**
   What happened to one name: its calls, whether a drain followed one, how many calls came before that,
   how many replies came, the addresses of all successful ones, and what the latest one said.
   */
  datatype History<+Cb> = History(calls: seq<Cb>, drained: bool, early: nat, replies: nat, addrs: seq<Ip>, status: Status)

  function Note<Cb>(h: History<Cb>, e: Event<Cb>, name: Host): History<Cb> {
    match e
    case Call(n, cb) =>
      if n != name then h else h.(calls := h.calls + [cb], early := if h.drained then h.early else h.early + 1)
    case Drain => h.(drained := h.drained || h.calls != [])
    case Answer(n, reply) =>
      if n != name then h
      else if reply.Success? then h.(replies := h.replies + 1, addrs := h.addrs + reply.addrs, status := Ok)
      else h.(replies := h.replies + 1, status := Error(reply.msg))
  }

  function Of<Cb>(run: seq<Event<Cb>>, name: Host): History<Cb> {
    if run == [] then History([], false, 0, 0, [], Ok) else Note(Of(Front(run), name), Last(run), name)
  }

  /** What must be delivered at an event, from the history of its name before it. */
  function ReferenceOut<Cb>(h: History<Cb>, e: Event<Cb>): seq<Delivery<Cb>> {
    match e
    case Drain => []
    case Call(name, cb) => if h.replies == 0 then [] else [Delivery(cb, name, h.addrs, h.status)]
    case Answer(name, _) =>
      var h' := Note(h, e, name);
      Deliver(if h.replies == 0 then h.calls else [], name, h'.addrs, h'.status)
  }

  function ReferenceLog<Cb>(run: seq<Event<Cb>>): seq<Delivery<Cb>> {
    if run == [] then []
    else ReferenceLog(Front(run)) +
         if Last(run).Drain? then [] else ReferenceOut(Of(Front(run), Last(run).name), Last(run))
  }

  /**
   How an entry reflects the history: before the drain there is one queued task per call; after it
   the queries are launched, all in that one batch; after the first reply nobody waits any more.
   */
  ghost predicate Reflects<Cb>(h: History<Cb>, s: State<Cb>, name: Host) {
    var info, queued := Lookup(s, name), multiset(s.tasks)[name];
    && (name in s.tasks ==> name in s.infos)
    && info.addrs == h.addrs && info.status == h.status
    && info.cbs == (if h.replies == 0 then h.calls else [])
    && info.phase == (if h.replies > 0 then Done else if h.drained then InProcessing else New)
    && queued + s.inflight[name] + h.replies == h.early
    && (if h.drained then queued == 0 && h.early > 0
        else h.replies == 0 && s.inflight[name] == 0 && h.early == |h.calls|)
  }

  lemma {:induction false} EntryReflectsHistory<Cb>(run: seq<Event<Cb>>, name: Host)
    requires Legal(run)
    ensures Reflects(Of(run, name), After(run), name)
  {
    if run != [] {
      var h, s := Of(Front(run), name), After(Front(run));
      EntryReflectsHistory(Front(run), name);
      match Last(run) {
        case Call(n, cb) => CallReflects(h, s, n, cb, name);
        case Drain => DrainReflects(h, s, name);
        case Answer(n, reply) => AnswerReflects(h, s, n, reply, name);
      }
    }
  }

  lemma CallReflects<Cb>(h: History<Cb>, s: State<Cb>, n: Host, cb: Cb, name: Host)
    requires Reflects(h, s, name)
    ensures Reflects(Note(h, Call(n, cb), name), CallStep(s, n, cb).state, name)
  {
    assert multiset(s.tasks + [n]) == multiset(s.tasks) + multiset{n};
    if n == name {
      OwnCallReflects(h, s, cb, name);
    } else {
      var t := CallStep(s, n, cb).state;
      assert Lookup(t, name) == Lookup(s, name) && multiset(t.tasks)[name] == multiset(s.tasks)[name];
    }
  }

  lemma OwnCallReflects<Cb>(h: History<Cb>, s: State<Cb>, cb: Cb, name: Host)
    requires Reflects(h, s, name)
    ensures Reflects(Note(h, Call(name, cb), name), CallStep(s, name, cb).state, name)
  {
    assert multiset(s.tasks + [name]) == multiset(s.tasks) + multiset{name};
  }

  lemma DrainReflects<Cb>(h: History<Cb>, s: State<Cb>, name: Host)
    requires Reflects(h, s, name)
    ensures Reflects(Note(h, Drain, name), DrainStep(s).state, name)
  {
    assert name in s.tasks <==> multiset(s.tasks)[name] > 0;
  }

  lemma AnswerReflects<Cb>(h: History<Cb>, s: State<Cb>, n: Host, reply: Reply, name: Host)
    requires Reflects(h, s, name) && n in s.inflight
    ensures Reflects(Note(h, Answer(n, reply), name), AnswerStep(s, n, reply).state, name)
  {
  }

  // ---------- Main results ----------

  /** The resolver makes exactly the reference's invocations, in the same order, for any order of replies. */
  lemma {:induction false} AgreesWithReference<Cb>(run: seq<Event<Cb>>)
    requires Legal(run)
    ensures Log(run) == ReferenceLog(run)
  {
    if run != [] {
      AgreesWithReference(Front(run));
      if !Last(run).Drain? {
        EntryReflectsHistory(Front(run), Last(run).name);
      }
    }
  }

  function CallOf<Cb>(e: Event<Cb>, name: Host): seq<Cb> {
    if e.Call? && e.name == name then [e.cb] else []
  }

  /** Every call's callback is either delivered or still waiting, in call order, never both. */
  lemma {:induction false} ExactlyOnceInOrder<Cb>(run: seq<Event<Cb>>, name: Host)
    requires Legal(run)
    ensures Of(run, name).calls == CbsFor(Log(run), name) + Lookup(After(run), name).cbs
  {
    if run != [] {
      var s, e := After(Front(run)), Last(run);
      ExactlyOnceInOrder(Front(run), name);
      if Lookup(s, name).phase == Done {
        NobodyWaitsWhenDone(Front(run), name);
      }
      CbsForConcat(Log(Front(run)), Step(s, e).out, name);
      StepKeepsOrder(s, e, name);
      NotedCalls(Of(Front(run), name), e, name);
      SwapMiddle(CbsFor(Log(Front(run)), name), Lookup(s, name).cbs, CallOf(e, name),
                 CbsFor(Step(s, e).out, name), Lookup(Step(s, e).state, name).cbs);
    }
  }

  lemma NobodyWaitsWhenDone<Cb>(run: seq<Event<Cb>>, name: Host)
    requires Legal(run) && Lookup(After(run), name).phase == Done
    ensures Lookup(After(run), name).cbs == []
  {
    EntryReflectsHistory(run, name);
  }

  lemma NotedCalls<Cb>(h: History<Cb>, e: Event<Cb>, name: Host)
    ensures Note(h, e, name).calls == h.calls + CallOf(e, name)
  {
  }

  lemma StepKeepsOrder<Cb>(s: State<Cb>, e: Event<Cb>, name: Host)
    requires Lookup(s, name).phase == Done ==> Lookup(s, name).cbs == []
    ensures var o := Step(s, e);
            Lookup(s, name).cbs + CallOf(e, name) == CbsFor(o.out, name) + Lookup(o.state, name).cbs
  {
    match e {
      case Call(n, cb) =>
        CallKeepsOrder(s, n, cb, name, CallOf(e, name));
      case Drain =>
        assert DrainStep(s).out == [];
      case Answer(n, reply) =>
        AnswerKeepsOrder(s, n, reply, name);
        assert CallOf(e, name) == [];
    }
  }

  lemma AnswerKeepsOrder<Cb>(s: State<Cb>, n: Host, reply: Reply, name: Host)
    ensures var o := AnswerStep(s, n, reply);
            Lookup(s, name).cbs == CbsFor(o.out, name) + Lookup(o.state, name).cbs
  {
    var info := Answered(Lookup(s, n), reply);
    CbsForDeliver(info.cbs, n, info.addrs, info.status, name);
  }

  lemma CallKeepsOrder<Cb>(s: State<Cb>, n: Host, cb: Cb, name: Host, made: seq<Cb>)
    requires Lookup(s, name).phase == Done ==> Lookup(s, name).cbs == []
    requires made == if n == name then [cb] else []
    ensures var o := CallStep(s, n, cb);
            Lookup(s, name).cbs + made == CbsFor(o.out, name) + Lookup(o.state, name).cbs
  {
    var o := CallStep(s, n, cb);
    var before, after := Lookup(s, name).cbs, Lookup(o.state, name).cbs;
    if o.out == [] {
      assert CbsFor(o.out, name) == [] && after == before + made;
    } else {
      CbsForOne(o.out[0], name);
      assert before == after && (made != [] ==> before == []);
    }
  }

  /**
   As many queries are made for a name as it had calls before its first drain: all are launched by that
   drain, and no other is ever queued, so once a reply came the entry is done for good.
   */
  lemma OneBatchOfQueries<Cb>(run: seq<Event<Cb>>, name: Host)
    requires Legal(run) && Of(run, name).drained
    ensures name !in After(run).tasks
    ensures After(run).inflight[name] + Of(run, name).replies == Of(run, name).early
    ensures Lookup(After(run), name).phase == Done <==> Of(run, name).replies > 0
  {
    EntryReflectsHistory(run, name);
  }

  /** With one early call a name has one query, and later calls are served exactly its reply. */
  lemma {:induction false} SingleQueryServesItsReply<Cb>(run: seq<Event<Cb>>, name: Host, reply: Reply, cb: Cb)
    requires Legal(run) && name in After(run).inflight && Of(run, name).early == 1
    ensures CallStep(Step(After(run), Answer(name, reply)).state, name, cb).out ==
            [Delivery(cb, name, if reply.Success? then reply.addrs else [], if reply.Success? then Ok else Error(reply.msg))]
  {
    EntryReflectsHistory(run, name);
    NoReplyNoAddresses(run, name);
    var h := Of(run, name);
    assert h.drained;
    AnswerReflects(h, After(run), name, reply, name);
    if reply.Success? {
      assert h.addrs + reply.addrs == reply.addrs;
    }
  }

  lemma {:induction false} NoReplyNoAddresses<Cb>(run: seq<Event<Cb>>, name: Host)
    requires Of(run, name).replies == 0
    ensures Of(run, name).addrs == [] && Of(run, name).status == Ok
  {
    if run != [] {
      NoReplyNoAddresses(Front(run), name);
    }
  }

  /** A call after a reply gets, at once, the addresses of all successful replies so far and the latest status. */
  lemma CachedAnswer<Cb>(run: seq<Event<Cb>>, name: Host, cb: Cb)
    requires Legal(run)
    ensures CallStep(After(run), name, cb).out ==
            if Of(run, name).replies == 0 then [] else [Delivery(cb, name, Of(run, name).addrs, Of(run, name).status)]
  {
    EntryReflectsHistory(run, name);
  }

  /** Each further successful reply adds its addresses again: two early calls, two replies, one address served twice. */
  lemma DuplicateQueriesDuplicateAddresses<Cb>(a: Cb, b: Cb, c: Cb, name: Host, ip: Ip)
    ensures var run := [Call(name, a), Call(name, b), Drain, Answer(name, Reply.Success([ip])), Answer(name, Reply.Success([ip]))];
            Legal(run) && CallStep(After(run), name, c).out == [Delivery(c, name, [ip, ip], Ok)]
  {
    var reply := Answer(name, Reply.Success([ip]));
    var r3 := [Call(name, a), Call(name, b), Drain];
    TwoEarlyCalls(a, b, name);
    assert [] + [ip] == [ip] && [ip] + [ip] == [ip, ip];
    Replied(r3, name, ip, History([a, b], true, 2, 0, [], Ok));
    Replied(r3 + [reply], name, ip, History([a, b], true, 2, 1, [ip], Ok));
    CachedAnswer(r3 + [reply] + [reply], name, c);
    assert r3 + [reply] + [reply] == [Call(name, a), Call(name, b), Drain, reply, reply];
  }

  /** One more reply to a name that has queries left. */
  lemma Replied<Cb>(run: seq<Event<Cb>>, name: Host, ip: Ip, h: History<Cb>)
    requires Legal(run) && Of(run, name) == h && h.drained && h.replies < h.early
    ensures var e := Answer(name, Reply.Success([ip]));
            Legal(run + [e]) && Of(run + [e], name) == h.(replies := h.replies + 1, addrs := h.addrs + [ip], status := Ok)
  {
    EntryReflectsHistory(run, name);
    Extend(run, Answer(name, Reply.Success([ip])), name);
  }

  lemma Extend<Cb>(run: seq<Event<Cb>>, e: Event<Cb>, name: Host)
    requires Legal(run) && (e.Answer? ==> e.name in After(run).inflight)
    ensures Legal(run + [e]) && Of(run + [e], name) == Note(Of(run, name), e, name)
  {
    assert Front(run + [e]) == run;
  }

  lemma TwoEarlyCalls<Cb>(a: Cb, b: Cb, name: Host)
    ensures var run := [Call(name, a), Call(name, b), Drain];
            Legal(run) && Of(run, name) == History([a, b], true, 2, 0, [], Ok)
  {
    Extend([], Call(name, a), name);
    Extend([] + [Call(name, a)], Call(name, b), name);
    Extend([] + [Call(name, a)] + [Call(name, b)], Drain, name);
    assert [] + [Call(name, a)] + [Call(name, b)] + [Drain] == [Call(name, a), Call(name, b), Drain];
    assert [] + [a] + [b] == [a, b];
  }

  // ---------- The class ----------

  class Ares<Cb(==)> {
    var infos: map<Host, Info<Cb>>
    var tasks: seq<Host>
    var inflight: multiset<Host>

    function Abs(): State<Cb>
      reads this
    {
      State(infos, tasks, inflight)
    }

    /** Queued pointers refer to existing entries. */
    ghost predicate Valid()
      reads this
    {
      forall t | t in tasks :: t in infos
    }

    constructor ()
      ensures Valid() && Abs() == Init()
    {
      infos, tasks, inflight := map[], [], multiset{};
    }

    method Resolve(name: Host, cb: Cb) returns (out: seq<Delivery<Cb>>)
      requires Valid()
      modifies this
      ensures Valid() && Outcome(Abs(), out) == CallStep(old(Abs()), name, cb)
    {
      out := [];
      if name !in infos {
        infos := infos[name := Fresh()];
      }
      var info := infos[name];
      match info.phase {
        case New =>
          info := info.(cbs := info.cbs + [cb]);
          tasks := tasks + [name];
        case InProcessing =>
          info := info.(cbs := info.cbs + [cb]);
        case Done =>
          out := [Delivery(cb, name, info.addrs, info.status)];
      }
      infos := infos[name := info];
    }

    /** One round of the worker: launch a query for every queued task, duplicates included. */
    method LaunchNewTasks()
      requires Valid()
      modifies this
      ensures Valid() && Outcome(Abs(), []) == DrainStep(old(Abs()))
    {
      for i := 0 to |tasks|
        invariant tasks == old(tasks)
        invariant infos == Launched(old(infos), tasks[..i])
        invariant inflight == old(inflight) + multiset(tasks[..i])
      {
        assert tasks[..i + 1] == tasks[..i] + [tasks[i]];
        LaunchedSnoc(old(infos), tasks[..i], tasks[i]);
        infos := infos[tasks[i] := infos[tasks[i]].(phase := InProcessing)];
        inflight := inflight + multiset{tasks[i]};
      }
      assert tasks[..|tasks|] == tasks;
      tasks := [];
    }

    method OnReply(name: Host, reply: Reply) returns (out: seq<Delivery<Cb>>)
      requires Valid() && name in infos && name in inflight
      modifies this
      ensures Valid() && Outcome(Abs(), out) == AnswerStep(old(Abs()), name, reply)
    {
      inflight := inflight - multiset{name};
      var info := infos[name].(phase := Done);
      if reply.Success? {
        info := info.(status := Ok);
        for i := 0 to |reply.addrs|
          invariant info == infos[name].(phase := Done, status := Ok, addrs := infos[name].addrs + reply.addrs[..i])
        {
          assert reply.addrs[..i + 1] == reply.addrs[..i] + [reply.addrs[i]];
          info := info.(addrs := info.addrs + [reply.addrs[i]]);
        }
        assert reply.addrs[..|reply.addrs|] == reply.addrs;
      } else {
        info := info.(status := Error(reply.msg));
      }
      out := [];
      for i := 0 to |info.cbs|
        invariant out == Deliver(info.cbs[..i], name, info.addrs, info.status)
      {
        out := out + [Delivery(info.cbs[i], name, info.addrs, info.status)];
      }
      assert info.cbs[..|info.cbs|] == info.cbs;
      infos := infos[name := info.(cbs := [])];
    }
  }
}
