/**
 The caching resolver of base/Resolver.cpp.

 The first half is the resolver as a state machine over its three atomic steps (each runs under the
 mutex); the second half is the class whose methods are those steps. Callbacks are tokens: a
 step returns the invocations it makes, in order.
 */
module Resolver {
  import opened Names

  datatype Phase = New | Expired | InProcessing | Done

  datatype Info<+Cb> = Info(phase: Phase, cbs: seq<Cb>, expire: int, status: Status, addrs: seq<Ip>)

  /** `inflight` is the environment's part: the evdns queries launched and not answered. */
  datatype State<Cb> = State(infos: map<Host, Info<Cb>>, tasks: seq<Host>, inflight: multiset<Host>)

  /** What evdns hands to the reply callback. */
  datatype Reply = Found(addrs: seq<Ip>, ttl: int) | Failed(msg: string)

  datatype Event<+Cb> =
    | Call(name: Host, cb: Cb, now: int)
    | Drain
    | Answer(name: Host, reply: Reply, now: int)

  datatype Outcome<Cb> = Outcome(state: State<Cb>, out: seq<Delivery<Cb>>)

  function Fresh<Cb>(): Info<Cb> {
    Info(New, [], 0, Ok, [])
  }

  function Lookup<Cb>(s: State<Cb>, name: Host): Info<Cb> {
    if name in s.infos then s.infos[name] else Fresh()
  }

  function Init<Cb>(): State<Cb> {
    State(map[], [], multiset{})
  }

  function CallStep<Cb>(s: State<Cb>, name: Host, cb: Cb, now: int): Outcome<Cb> {
    var found := Lookup(s, name);
    var info := if found.phase == Done && found.expire < now then found.(phase := Expired) else found;
    match info.phase
    case New | Expired =>
      Outcome(s.(infos := s.infos[name := info.(phase := InProcessing, cbs := info.cbs + [cb])],
                 tasks := s.tasks + [name]), [])
    case InProcessing =>
      Outcome(s.(infos := s.infos[name := info.(cbs := info.cbs + [cb])]), [])
    case Done =>
      Outcome(s.(infos := s.infos[name := info]), [Delivery(cb, name, info.addrs, info.status)])
  }

  function DrainStep<Cb>(s: State<Cb>): Outcome<Cb> {
    Outcome(s.(tasks := [], inflight := s.inflight + multiset(s.tasks)), [])
  }

  /** A failed reply changes the status only: the previous addresses and expiry stay in place. */
  function Answered<Cb>(info: Info<Cb>, reply: Reply, now: int): Info<Cb> {
    match reply
    case Found(addrs, ttl) => info.(status := Ok, expire := now + ttl, addrs := addrs)
    case Failed(msg) => info.(status := Error(msg))
  }

  function AnswerStep<Cb>(s: State<Cb>, name: Host, reply: Reply, now: int): Outcome<Cb> {
    var info := Answered(Lookup(s, name), reply, now);
    Outcome(s.(infos := s.infos[name := info.(cbs := [], phase := Done)],
               inflight := s.inflight - multiset{name}),
            Deliver(info.cbs, name, info.addrs, info.status))
  }

  function Step<Cb>(s: State<Cb>, e: Event<Cb>): Outcome<Cb> {
    match e
    case Call(name, cb, now) => CallStep(s, name, cb, now)
    case Drain => DrainStep(s)
    case Answer(name, reply, now) => AnswerStep(s, name, reply, now)
  }

  // ---------- Runs ----------

  function After<Cb>(run: seq<Event<Cb>>): State<Cb> {
    if run == [] then Init() else Step(After(Front(run)), Last(run)).state
  }

  /** Everything the resolver delivered over the run, in order. */
  function Log<Cb>(run: seq<Event<Cb>>): seq<Delivery<Cb>> {
    if run == [] then [] else Log(Front(run)) + Step(After(Front(run)), Last(run)).out
  }

  /** The time of the latest timed event; the clock starts positive. */
  function Clock<Cb>(run: seq<Event<Cb>>): int {
    if run == [] then 1
    else match Last(run)
      case Drain => Clock(Front(run))
      case Call(_, _, now) => now
      case Answer(_, _, now) => now
  }

  /** Time never runs backwards, and evdns answers only queries it was given, each once. */
  ghost predicate Legal<Cb>(run: seq<Event<Cb>>) {
    run == [] ||
    (Legal(Front(run)) &&
     match Last(run)
     case Drain => true
     case Call(_, _, now) => Clock(Front(run)) <= now
     case Answer(name, _, now) => Clock(Front(run)) <= now && name in After(Front(run)).inflight)
  }

  // ---------- The reference: what should be delivered, from the history alone ----------

  datatype Stamped = Stamped(reply: Reply, at: int)

  /** The most recent reply for a name and when it came. */
  function LastReply<Cb>(run: seq<Event<Cb>>, name: Host): Option<Stamped> {
    if run == [] then None
    else if Last(run).Answer? && Last(run).name == name then Some(Stamped(Last(run).reply, Last(run).now))
    else LastReply(Front(run), name)
  }

  /** The addresses of the most recent successful reply for a name. */
  function KnownAddrs<Cb>(run: seq<Event<Cb>>, name: Host): seq<Ip> {
    if run == [] then []
    else if Last(run).Answer? && Last(run).name == name && Last(run).reply.Found? then Last(run).reply.addrs
    else KnownAddrs(Front(run), name)
  }

  /** The most recent reply was a success whose lifetime has not run out. */
  predicate Cacheable<Cb>(run: seq<Event<Cb>>, name: Host, now: int) {
    var last := LastReply(run, name);
    last.Some? && last.value.reply.Found? && now <= last.value.at + last.value.reply.ttl
  }

  /** The callers who could not be answered at once and have seen no reply since. */
  function Waiting<Cb>(run: seq<Event<Cb>>, name: Host): seq<Cb> {
    if run == [] then []
    else match Last(run)
      case Drain => Waiting(Front(run), name)
      case Call(n, cb, now) =>
        if n == name && !Cacheable(Front(run), name, now) then Waiting(Front(run), name) + [cb]
        else Waiting(Front(run), name)
      case Answer(n, _, _) => if n == name then [] else Waiting(Front(run), name)
  }

  function ReplyStatus(reply: Reply): Status {
    match reply
    case Found(_, _) => Ok
    case Failed(msg) => Error(msg)
  }

  /** What a resolver without phases, queues or stored entries delivers at the last event of a run. */
  function ReferenceOut<Cb>(run: seq<Event<Cb>>): seq<Delivery<Cb>>
    requires run != []
  {
    match Last(run)
    case Drain => []
    case Call(name, cb, now) =>
      if Cacheable(Front(run), name, now) then [Delivery(cb, name, KnownAddrs(Front(run), name), Ok)] else []
    case Answer(name, reply, _) =>
      Deliver(Waiting(Front(run), name), name, KnownAddrs(run, name), ReplyStatus(reply))
  }

  function ReferenceLog<Cb>(run: seq<Event<Cb>>): seq<Delivery<Cb>> {
    if run == [] then [] else ReferenceLog(Front(run)) + ReferenceOut(run)
  }

  // ---------- Invariants ----------

  /** One query for a name being resolved, queued or launched, and none otherwise; callers wait exactly then. */
  ghost predicate SingleFlight<Cb>(s: State<Cb>, name: Host) {
    && multiset(s.tasks)[name] + s.inflight[name] == (if Lookup(s, name).phase == InProcessing then 1 else 0)
    && (Lookup(s, name).cbs != [] <==> Lookup(s, name).phase == InProcessing)
  }

  /** A finished entry holds its latest reply; a failed one is past its expiry. */
  ghost predicate Holds<Cb>(info: Info<Cb>, last: Stamped, clock: int) {
    && info.cbs == []
    && info.status == ReplyStatus(last.reply)
    && if last.reply.Found? then info.addrs == last.reply.addrs && info.expire == last.at + last.reply.ttl
       else info.expire < clock
  }

  /** How one stored entry reflects the history. */
  ghost predicate Reflects<Cb>(run: seq<Event<Cb>>, name: Host, info: Info<Cb>) {
    && info.cbs == Waiting(run, name)
    && info.addrs == KnownAddrs(run, name)
    && info.phase != Expired
    && (info.phase == New ==> info == Fresh() && LastReply(run, name) == None)
    && (info.phase != Done ==> info.expire < Clock(run) && !Cacheable(run, name, Clock(run)))
    && (info.phase == Done ==> LastReply(run, name).Some? && Holds(info, LastReply(run, name).value, Clock(run)))
  }

  lemma {:induction false} SingleFlightAlways<Cb>(run: seq<Event<Cb>>, name: Host)
    requires Legal(run)
    ensures SingleFlight(After(run), name)
  {
    if run != [] {
      SingleFlightAlways(Front(run), name);
      SingleFlightStep(After(Front(run)), Last(run), name);
    }
  }

  lemma SingleFlightStep<Cb>(s: State<Cb>, e: Event<Cb>, name: Host)
    requires SingleFlight(s, name)
    requires e.Answer? ==> e.name in s.inflight
    ensures SingleFlight(Step(s, e).state, name)
  {
    match e {
      case Call(n, cb, now) => SingleFlightCall(s, n, cb, now, name);
      case Drain =>
      case Answer(n, reply, now) =>
    }
  }

  lemma SingleFlightCall<Cb>(s: State<Cb>, n: Host, cb: Cb, now: int, name: Host)
    requires SingleFlight(s, name)
    ensures SingleFlight(CallStep(s, n, cb, now).state, name)
  {
    assert multiset(s.tasks + [n]) == multiset(s.tasks) + multiset{n};
  }

  lemma {:induction false} EntryReflectsHistory<Cb>(run: seq<Event<Cb>>, name: Host)
    requires Legal(run)
    ensures Reflects(run, name, Lookup(After(run), name))
  {
    if run != [] {
      EntryReflectsHistory(Front(run), name);
      SingleFlightAlways(Front(run), name);
      match Last(run) {
        case Call(n, cb, now) => CallReflects(run, name);
        case Drain =>
        case Answer(n, reply, now) => AnswerReflects(run, name);
      }
    }
  }

  lemma CallReflects<Cb>(run: seq<Event<Cb>>, name: Host)
    requires run != [] && Legal(run) && Last(run).Call?
    requires Reflects(Front(run), name, Lookup(After(Front(run)), name))
    ensures Reflects(run, name, Lookup(After(run), name))
  {
    var front, now := Front(run), Last(run).now;
    assert LastReply(run, name) == LastReply(front, name);
    assert KnownAddrs(run, name) == KnownAddrs(front, name);
    assert Clock(front) <= now == Clock(run);
    assert Cacheable(run, name, now) == Cacheable(front, name, now);
    if Last(run).name == name {
      OwnCallReflects(run, name, Lookup(After(front), name));
    } else {
      assert Lookup(After(run), name) == Lookup(After(front), name);
      assert Waiting(run, name) == Waiting(front, name);
    }
  }

  /** The entry of the name that is called. */
  lemma OwnCallReflects<Cb>(run: seq<Event<Cb>>, name: Host, info: Info<Cb>)
    requires run != [] && Legal(run) && Last(run).Call? && Last(run).name == name
    requires info == Lookup(After(Front(run)), name) && Reflects(Front(run), name, info)
    ensures Reflects(run, name, Lookup(After(run), name))
  {
    var front, now := Front(run), Last(run).now;
    assert LastReply(run, name) == LastReply(front, name);
    assert KnownAddrs(run, name) == KnownAddrs(front, name);
    assert Clock(front) <= now == Clock(run);
    assert Cacheable(run, name, now) == Cacheable(front, name, now);
    assert After(run) == CallStep(After(front), name, Last(run).cb, now).state;
  }

  lemma AnswerReflects<Cb>(run: seq<Event<Cb>>, name: Host)
    requires run != [] && Legal(run) && Last(run).Answer?
    requires Reflects(Front(run), name, Lookup(After(Front(run)), name))
    requires SingleFlight(After(Front(run)), name)
    ensures Reflects(run, name, Lookup(After(run), name))
  {
  }

  // ---------- Main results ----------

  /**
   The caching, coalescing resolver is observably the reference: over every legal run it makes the
   same invocations with the same arguments in the same order.
   */
  lemma {:induction false} AgreesWithReference<Cb>(run: seq<Event<Cb>>)
    requires Legal(run)
    ensures Log(run) == ReferenceLog(run)
  {
    if run != [] {
      AgreesWithReference(Front(run));
      if !Last(run).Drain? {
        EntryReflectsHistory(Front(run), Last(run).name);
      }
    }
  }

  /**
   A call is answered at once exactly when the latest reply for its name succeeded and has not expired;
   it then gets that reply's addresses. Failures are therefore never served from the cache.
   */
  lemma CacheServesExactlyFreshSuccesses<Cb>(run: seq<Event<Cb>>, name: Host, cb: Cb, now: int)
    requires Legal(run) && Clock(run) <= now
    ensures CallStep(After(run), name, cb, now).out ==
            if Cacheable(run, name, now) then [Delivery(cb, name, LastReply(run, name).value.reply.addrs, Ok)] else []
  {
    EntryReflectsHistory(run, name);
  }

  function CallOf<Cb>(e: Event<Cb>, name: Host): seq<Cb> {
    if e.Call? && e.name == name then [e.cb] else []
  }

  function CallsFor<Cb>(run: seq<Event<Cb>>, name: Host): seq<Cb> {
    if run == [] then [] else CallsFor(Front(run), name) + CallOf(Last(run), name)
  }

  lemma CallKeepsOrder<Cb>(s: State<Cb>, n: Host, cb: Cb, now: int, name: Host)
    requires SingleFlight(s, name)
    ensures var o := CallStep(s, n, cb, now);
            Lookup(s, name).cbs + (if n == name then [cb] else []) == CbsFor(o.out, name) + Lookup(o.state, name).cbs
  {
    var o := CallStep(s, n, cb, now);
    if o.out == [] {
      assert CbsFor(o.out, name) == [];
      CallWaits(s, n, cb, now, name);
    } else {
      CbsForOne(o.out[0], name);
      CallAnswered(s, n, cb, now, name);
      assert o.out == [o.out[0]];
    }
  }

  lemma CallWaits<Cb>(s: State<Cb>, n: Host, cb: Cb, now: int, name: Host)
    requires CallStep(s, n, cb, now).out == []
    ensures Lookup(CallStep(s, n, cb, now).state, name).cbs == Lookup(s, name).cbs + if n == name then [cb] else []
  {
  }

  lemma CallAnswered<Cb>(s: State<Cb>, n: Host, cb: Cb, now: int, name: Host)
    requires CallStep(s, n, cb, now).out != [] && SingleFlight(s, name)
    ensures var o := CallStep(s, n, cb, now);
            && |o.out| == 1 && o.out[0].cb == cb && o.out[0].name == n
            && Lookup(o.state, name).cbs == Lookup(s, name).cbs && (n == name ==> Lookup(s, name).cbs == [])
  {
  }

  lemma AnswerKeepsOrder<Cb>(s: State<Cb>, n: Host, reply: Reply, now: int, name: Host)
    ensures var o := AnswerStep(s, n, reply, now);
            Lookup(s, name).cbs == CbsFor(o.out, name) + Lookup(o.state, name).cbs
  {
    var info := Answered(Lookup(s, n), reply, now);
    CbsForDeliver(info.cbs, n, info.addrs, info.status, name);
  }

  lemma StepKeepsOrder<Cb>(s: State<Cb>, e: Event<Cb>, name: Host)
    requires SingleFlight(s, name)
    ensures var o := Step(s, e);
            Lookup(s, name).cbs + CallOf(e, name) == CbsFor(o.out, name) + Lookup(o.state, name).cbs
  {
    match e {
      case Call(n, cb, now) =>
        CallKeepsOrder(s, n, cb, now, name);
      case Drain =>
        assert Step(s, e).out == [];
      case Answer(n, reply, now) =>
        AnswerKeepsOrder(s, n, reply, now, name);
        assert CallOf(e, name) == [];
    }
  }

  /** Per name, the calls made are the callbacks delivered followed by those still waiting, in call order. */
  lemma {:induction false} ExactlyOnceInOrder<Cb>(run: seq<Event<Cb>>, name: Host)
    requires Legal(run)
    ensures CallsFor(run, name) == CbsFor(Log(run), name) + Lookup(After(run), name).cbs
  {
    if run != [] {
      var s, e := After(Front(run)), Last(run);
      var o := Step(s, e);
      ExactlyOnceInOrder(Front(run), name);
      SingleFlightAlways(Front(run), name);
      CbsForConcat(Log(Front(run)), o.out, name);
      StepKeepsOrder(s, e, name);
      SwapMiddle(CbsFor(Log(Front(run)), name), Lookup(s, name).cbs, CallOf(e, name),
                 CbsFor(o.out, name), Lookup(o.state, name).cbs);
    }
  }

  /** Whoever waits has a query queued or launched for its name, so some Drain or Answer can serve it. */
  lemma WaitersHaveAQuery<Cb>(run: seq<Event<Cb>>, name: Host)
    requires Legal(run) && Waiting(run, name) != []
    ensures name in After(run).tasks || name in After(run).inflight
  {
    EntryReflectsHistory(run, name);
    SingleFlightAlways(run, name);
  }

  // ---------- The class ----------

  class Resolver<Cb(==)> {
    var infos: map<Host, Info<Cb>>
    var tasks: seq<Host>
    var inflight: multiset<Host>

    function Abs(): State<Cb>
      reads this
    {
      State(infos, tasks, inflight)
    }

    constructor ()
      ensures Abs() == Init()
    {
      infos, tasks, inflight := map[], [], multiset{};
    }

    method Resolve(name: Host, cb: Cb, now: int) returns (out: seq<Delivery<Cb>>)
      modifies this
      ensures Outcome(Abs(), out) == CallStep(old(Abs()), name, cb, now)
    {
      out := [];
      if name !in infos {
        infos := infos[name := Fresh()];
      }
      var info := infos[name];
      if info.phase == Done && info.expire < now {
        info := info.(phase := Expired);
      }
      match info.phase {
        case New | Expired =>
          info := info.(phase := InProcessing);
          info := info.(cbs := info.cbs + [cb]);
          tasks := tasks + [name];
        case InProcessing =>
          info := info.(cbs := info.cbs + [cb]);
        case Done =>
          out := [Delivery(cb, name, info.addrs, info.status)];
      }
      infos := infos[name := info];
    }

    /** The wake-up handler: one query for each queued name. */
    method EvCb()
      modifies this
      ensures Outcome(Abs(), []) == DrainStep(old(Abs()))
    {
      var i := 0;
      while i < |tasks|
        invariant 0 <= i <= |tasks|
        invariant infos == old(infos) && tasks == old(tasks)
        invariant inflight == old(inflight) + multiset(tasks[..i])
      {
        assert tasks[..i + 1] == tasks[..i] + [tasks[i]];
        inflight := inflight + multiset{tasks[i]};
        i := i + 1;
      }
      assert tasks[..i] == tasks;
      tasks := [];
    }

    /** The reply handler: store the answer, run every waiting callback, mark the entry done. */
    method OnReply(name: Host, reply: Reply, now: int) returns (out: seq<Delivery<Cb>>)
      requires name in infos && name in inflight
      modifies this
      ensures Outcome(Abs(), out) == AnswerStep(old(Abs()), name, reply, now)
    {
      inflight := inflight - multiset{name};
      var info := infos[name];
      if reply.Found? {
        info := info.(status := Ok, expire := now + reply.ttl, addrs := []);
        for i := 0 to |reply.addrs|
          invariant info == infos[name].(status := Ok, expire := now + reply.ttl, addrs := reply.addrs[..i])
        {
          assert reply.addrs[..i + 1] == reply.addrs[..i] + [reply.addrs[i]];
          info := info.(addrs := info.addrs + [reply.addrs[i]]);
        }
        assert reply.addrs[..|reply.addrs|] == reply.addrs;
      } else {
        info := info.(status := Error(reply.msg));
      }
      out := [];
      for i := 0 to |info.cbs|
        invariant out == Deliver(info.cbs[..i], name, info.addrs, info.status)
      {
        out := out + [Delivery(info.cbs[i], name, info.addrs, info.status)];
      }
      assert info.cbs[..|info.cbs|] == info.cbs;
      infos := infos[name := info.(cbs := [], phase := Done)];
    }
  }
}
