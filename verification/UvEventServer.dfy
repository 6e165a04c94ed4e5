/**
 The libuv loop wrapper of libuves/EventServer.cpp: who owns the handles, and when they are deleted.

 Handle objects are numbered in the order of their creation, which stands for pointer identity. `loop` holds
 the handles libuv knows of, until their close callback has run; that callback deletes the object.
 */
module UvEventServer {
  import opened Names

  datatype Kind = Async | Timer | Poll(desc: int)

  datatype Uv = Uv(kind: Kind, closing: bool)

  /** What is queued for the loop: the callback of stop(), or a client's. */
  datatype Work = Stop | Other(id: nat)

  /** `sent` is the pending flag of the async handle; `deleted` is the history. */
  datatype State = State(
    next: nat,
    loop: map<nat, Uv>,
    timers: set<nat>,
    polls: map<int, nat>,
    async: Option<nat>,
    sent: bool,
    queue: seq<Work>,
    batch: seq<Work>,
    deleted: multiset<nat>)

  datatype Event =
    | AddAsync(work: Work)
    | Wake
    | RunNext
    | AddTimer
    | RemoveTimer(h: nat)
    | AddPoll(desc: int)
    | StopPoll(desc: int)
    | RemovePoll(desc: int)
    | Closed(h: nat)

  function Init(): State {
    State(1, map[0 := Uv(Async, false)], {}, map[], Some(0), false, [], [], multiset{})
  }

  function Create(s: State, kind: Kind): State {
    s.(next := s.next + 1, loop := s.loop[s.next := Uv(kind, false)])
  }

  /** uv_close asserts that the handle is not closing already. */
  function Close(s: State, h: nat): Option<State> {
    if h in s.loop && !s.loop[h].closing then Some(s.(loop := s.loop[h := s.loop[h].(closing := true)])) else None
  }

  predicate NothingCloses(s: State) {
    forall h | h in s.loop :: !s.loop[h].closing
  }

  function AllClosing(loop: map<nat, Uv>): map<nat, Uv> {
    map h | h in loop :: loop[h].(closing := true)
  }

  /** The callback of stop(): close every handle of the loop and forget them. */
  function StopStep(s: State): Option<State> {
    if !NothingCloses(s) then None
    else Some(s.(loop := AllClosing(s.loop), timers := {}, polls := map[], async := None, sent := false))
  }

  function AddAsyncStep(s: State, work: Work): State {
    var t := if s.async == None then Create(s, Async).(async := Some(s.next)) else s;
    t.(queue := s.queue + [work], sent := true)
  }

  /** stop_poll closes and forgets the handle, like remove_poll. */
  function RemovePollStep(s: State, desc: int): Option<State>
    requires desc in s.polls
  {
    match Close(s, s.polls[desc])
    case Some(t) => Some(t.(polls := s.polls - {desc}))
    case None => None
  }

  function RemoveTimerStep(s: State, h: nat): Option<State> {
    match Close(s, h)
    case Some(t) => Some(t.(timers := s.timers - {h}))
    case None => None
  }

  /**
   What callers must respect: a timer or descriptor that is removed was added. What the loop does: async work is
   fetched on a wake-up and run without interruption; close callbacks run when no other handler does.
   */
  predicate Enabled(s: State, e: Event) {
    match e
    case AddAsync(_) => true
    case Wake => s.sent && s.async.Some? && s.batch == []
    case RunNext => s.batch != []
    case AddTimer => true
    case RemoveTimer(h) => h in s.timers
    case AddPoll(_) => true
    case StopPoll(desc) => desc in s.polls
    case RemovePoll(desc) => desc in s.polls
    case Closed(h) => s.batch == [] && h in s.loop && s.loop[h].closing
  }

  /** None when libuv aborts the process. */
  function Step(s: State, e: Event): Option<State>
    requires Enabled(s, e)
  {
    match e
    case AddAsync(work) => Some(AddAsyncStep(s, work))
    case Wake => Some(s.(sent := false, batch := s.queue, queue := []))
    case RunNext =>
      var t := s.(batch := s.batch[1..]);
      if s.batch[0] == Stop then StopStep(t) else Some(t)
    case AddTimer => Some(Create(s, Timer).(timers := s.timers + {s.next}))
    case RemoveTimer(h) => RemoveTimerStep(s, h)
    case AddPoll(desc) => Some(Create(s, Poll(desc)).(polls := s.polls[desc := s.next]))
    case StopPoll(desc) => RemovePollStep(s, desc)
    case RemovePoll(desc) => RemovePollStep(s, desc)
    case Closed(h) => Some(s.(loop := s.loop - {h}, deleted := s.deleted + multiset{h}))
  }

  // ---------- Runs ----------

  ghost predicate Legal(run: seq<Event>)
    decreases |run|, 0
  {
    run == [] || (Legal(Front(run)) && Enabled(After(Front(run)), Last(run)) && Step(After(Front(run)), Last(run)).Some?)
  }

  ghost function After(run: seq<Event>): State
    requires Legal(run)
    decreases |run|, 1
  {
    if run == [] then Init() else Step(After(Front(run)), Last(run)).value
  }

  // ---------- Ownership ----------

  /** A handle that is not closing is in the map for its kind. */
  ghost predicate Owned(s: State, h: nat)
    requires h in s.loop
  {
    s.loop[h].closing ||
    match s.loop[h].kind
    case Async => s.async == Some(h)
    case Timer => h in s.timers
    case Poll(desc) => desc in s.polls && s.polls[desc] == h
  }

  /** Whatever is in a map is in the loop, alive, and of that kind. */
  ghost predicate Live(s: State, h: nat, kind: Kind) {
    h in s.loop && s.loop[h] == Uv(kind, false)
  }

  ghost predicate MapsLive(s: State) {
    && (forall h | h in s.loop :: h < s.next)
    && (forall h | h in s.timers :: Live(s, h, Timer))
    && (forall desc | desc in s.polls :: Live(s, s.polls[desc], Poll(desc)))
    && (s.async.Some? ==> Live(s, s.async.value, Async))
  }

  ghost predicate AllOwned(s: State) {
    forall h | h in s.loop :: Owned(s, h)
  }

  lemma CreateMapsLive(s: State, kind: Kind)
    requires MapsLive(s)
    ensures MapsLive(Create(s, kind)) && Live(Create(s, kind), s.next, kind)
  {
    var t := Create(s, kind);
    assert forall h | h in s.timers :: Live(s, h, Timer) && Live(t, h, Timer);
    assert forall desc | desc in s.polls :: Live(s, s.polls[desc], Poll(desc)) && Live(t, s.polls[desc], Poll(desc));
  }

  lemma StepMapsLive(s: State, e: Event)
    requires MapsLive(s) && Enabled(s, e) && Step(s, e).Some?
    ensures MapsLive(Step(s, e).value)
  {
    match e {
      case AddAsync(_) => CreateMapsLive(s, Async);
      case AddTimer => CreateMapsLive(s, Timer);
      case AddPoll(desc) => CreateMapsLive(s, Poll(desc));
      case RemoveTimer(h) => RemoveTimerMapsLive(s, h);
      case StopPoll(desc) => RemovePollMapsLive(s, desc);
      case RemovePoll(desc) => RemovePollMapsLive(s, desc);
      case _ =>
    }
  }

  lemma RemoveTimerMapsLive(s: State, h: nat)
    requires MapsLive(s) && h in s.timers
    ensures RemoveTimerStep(s, h).Some? && MapsLive(RemoveTimerStep(s, h).value)
  {
    assert Live(s, h, Timer);
  }

  lemma RemovePollMapsLive(s: State, desc: int)
    requires MapsLive(s) && desc in s.polls
    ensures RemovePollStep(s, desc).Some? && MapsLive(RemovePollStep(s, desc).value)
  {
    assert Live(s, s.polls[desc], Poll(desc));
  }

  /** Closed, and still in the loop until its close callback has run; no other handle is touched. */
  ghost predicate OneMoreCloses(s: State, t: State, h: nat) {
    && t.loop.Keys == s.loop.Keys && h in t.loop && t.loop[h].closing
    && (forall g | g in s.loop && g != h :: t.loop[g] == s.loop[g])
    && t.async == s.async && t.sent == s.sent && t.queue == s.queue && t.batch == s.batch && t.next == s.next
  }

  /** Removing a timer closes it, and its id is known no more. */
  lemma RemovedTimerCloses(s: State, h: nat)
    requires MapsLive(s) && h in s.timers
    ensures var t := Step(s, RemoveTimer(h));
            && t.Some? && OneMoreCloses(s, t.value, h)
            && h !in t.value.timers && t.value.timers + {h} == s.timers && t.value.polls == s.polls
  {
    assert Live(s, h, Timer);
  }

  /** Removing or stopping a poll closes it, and its descriptor has none any more. */
  lemma RemovedPollCloses(s: State, desc: int)
    requires MapsLive(s) && desc in s.polls
    ensures Step(s, StopPoll(desc)) == Step(s, RemovePoll(desc))
    ensures var t := Step(s, RemovePoll(desc));
            && t.Some? && OneMoreCloses(s, t.value, s.polls[desc])
            && desc !in t.value.polls && (forall d | d in s.polls && d != desc :: d in t.value.polls && t.value.polls[d] == s.polls[d])
            && t.value.polls.Keys + {desc} == s.polls.Keys && t.value.timers == s.timers
  {
    assert Live(s, s.polls[desc], Poll(desc));
  }

  /** An added timer or poll is open and in its map, under a new number; the other entries stay. */
  lemma AddedHandleIsOpen(s: State, desc: int)
    requires MapsLive(s)
    ensures var t := Step(s, AddTimer);
            && t.Some? && Live(t.value, s.next, Timer) && s.next !in s.timers
            && t.value.timers == s.timers + {s.next} && t.value.polls == s.polls
            && (forall h | h in s.loop :: h in t.value.loop && t.value.loop[h] == s.loop[h])
    ensures var t := Step(s, AddPoll(desc));
            && t.Some? && Live(t.value, s.next, Poll(desc)) && s.next !in s.loop
            && t.value.polls == s.polls[desc := s.next] && t.value.timers == s.timers
            && (forall h | h in s.loop :: h in t.value.loop && t.value.loop[h] == s.loop[h])
  {
    assert s.next in s.timers ==> Live(s, s.next, Timer);
  }

  /** Nothing a caller may do makes libuv abort, except stop() while some handle is closing. */
  lemma AbortsIff(s: State, e: Event)
    requires MapsLive(s) && Enabled(s, e)
    ensures Step(s, e) == None <==> e == RunNext && s.batch[0] == Stop && !NothingCloses(s)
  {
  }

  /** A step keeps every handle owned, unless it adds a poll for a descriptor that has one: that one is then lost. */
  lemma StepAllOwnedIff(s: State, e: Event)
    requires MapsLive(s) && AllOwned(s) && Enabled(s, e) && Step(s, e).Some?
    ensures AllOwned(Step(s, e).value) <==> !(e.AddPoll? && e.desc in s.polls)
  {
    var t := Step(s, e).value;
    if e.AddPoll? && e.desc in s.polls {
      assert Live(s, s.polls[e.desc], Poll(e.desc));
      assert !Owned(t, s.polls[e.desc]);
    } else {
      forall h | h in t.loop
        ensures Owned(t, h)
      {
        assert h in s.loop ==> Owned(s, h);
      }
    }
  }

  /** An object is deleted once, when the loop has let go of it. */
  ghost predicate DeletedOnce(s: State, h: nat) {
    s.deleted[h] == if h < s.next && h !in s.loop then 1 else 0
  }

  lemma StepDeleted(s: State, e: Event, h: nat)
    requires MapsLive(s) && Enabled(s, e) && Step(s, e).Some? && DeletedOnce(s, h)
    ensures DeletedOnce(Step(s, e).value, h)
  {
  }

  // ---------- Main results ----------

  lemma {:induction false} MapsLiveAlways(run: seq<Event>)
    requires Legal(run)
    ensures MapsLive(After(run))
  {
    if run != [] {
      MapsLiveAlways(Front(run));
      StepMapsLive(After(Front(run)), Last(run));
    }
  }

  /** No descriptor was added while it had a poll. */
  ghost predicate DistinctPolls(run: seq<Event>)
    requires Legal(run)
  {
    run == [] ||
    (DistinctPolls(Front(run)) && (Last(run).AddPoll? ==> Last(run).desc !in After(Front(run)).polls))
  }

  lemma {:induction false} OwnedAlways(run: seq<Event>)
    requires Legal(run) && DistinctPolls(run)
    ensures AllOwned(After(run))
  {
    if run != [] {
      OwnedAlways(Front(run));
      MapsLiveAlways(Front(run));
      StepAllOwnedIff(After(Front(run)), Last(run));
    }
  }

  lemma {:induction false} DeletedAlways(run: seq<Event>, h: nat)
    requires Legal(run)
    ensures DeletedOnce(After(run), h)
  {
    if run != [] {
      DeletedAlways(Front(run), h);
      MapsLiveAlways(Front(run));
      StepDeleted(After(Front(run)), Last(run), h);
    }
  }

  ghost predicate PolledBy(s: State, h: nat, desc: int) {
    desc in s.polls && s.polls[desc] == h
  }

  /**
   The loop's open handles are exactly the timers, the polls and the async handle: each is one of them, and
   only one.
   */
  lemma OpenHandlesAreTheMaps(run: seq<Event>, h: nat)
    requires Legal(run) && DistinctPolls(run)
    ensures var s := After(run);
            h in s.loop && !s.loop[h].closing <==> h in s.timers || s.async == Some(h) || exists desc :: PolledBy(s, h, desc)
    ensures var s := After(run);
            && (h in s.timers ==> s.async != Some(h) && forall desc :: !PolledBy(s, h, desc))
            && (s.async == Some(h) ==> forall desc :: !PolledBy(s, h, desc))
            && (forall a, b :: PolledBy(s, h, a) && PolledBy(s, h, b) ==> a == b)
  {
    var s := After(run);
    MapsLiveAlways(run);
    OwnedAlways(run);
    if h in s.loop && !s.loop[h].closing {
      assert Owned(s, h);
      if s.loop[h].kind.Poll? {
        assert PolledBy(s, h, s.loop[h].kind.desc);
      }
    }
  }

  /** Adding a poll for a descriptor that has one loses the old handle: it stays open, and in no map. */
  lemma SecondPollLosesTheFirst(run: seq<Event>, desc: int)
    requires Legal(run) && desc in After(run).polls
    ensures var s, t := After(run), After(run + [AddPoll(desc)]);
            Legal(run + [AddPoll(desc)]) && Live(t, s.polls[desc], Poll(desc)) && !Owned(t, s.polls[desc])
  {
    MapsLiveAlways(run);
    assert Front(run + [AddPoll(desc)]) == run;
    assert Live(After(run), After(run).polls[desc], Poll(desc));
  }

  /** Every object is deleted at most once, and all have been when the loop is empty, as its destructor demands. */
  lemma EmptyLoopMeansAllDeleted(run: seq<Event>, h: nat)
    requires Legal(run) && h < After(run).next
    ensures After(run).deleted[h] <= 1
    ensures After(run).loop == map[] ==> After(run).deleted[h] == 1
  {
    DeletedAlways(run, h);
  }

  /** What is left to happen once stop() has run and nobody adds anything. */
  predicate Winding(e: Event) {
    e.RunNext? || e.Closed?
  }

  ghost predicate AllClose(s: State) {
    && (forall h | h in s.loop :: s.loop[h].closing)
    && s.timers == {} && s.polls == map[] && s.async == None
  }

  lemma WindingStep(s: State, e: Event)
    requires AllClose(s) && Winding(e) && Enabled(s, e) && Step(s, e).Some?
    ensures var t := Step(s, e).value;
            AllClose(t) && |t.loop| + |t.batch| + 1 == |s.loop| + |s.batch|
  {
    if e.Closed? {
      var t := Step(s, e).value;
      assert t.loop.Keys == s.loop.Keys - {e.h};
      assert |s.loop| == |s.loop.Keys| && |t.loop| == |t.loop.Keys|;
    } else if s.batch[0] == Stop {
      assert AllClosing(s.loop) == s.loop;
    }
  }

  /** A stop() that libuv lets pass ends the loop: the rest of the batch and the close callbacks run, and nothing else. */
  lemma {:induction false} StopEndsTheLoop(run: seq<Event>, more: seq<Event>)
    requires Legal(run) && After(run).batch != [] && After(run).batch[0] == Stop
    requires Legal(run + [RunNext] + more) && forall e | e in more :: Winding(e)
    ensures AllClose(After(run + [RunNext] + more))
    ensures |After(run + [RunNext] + more).loop| + |After(run + [RunNext] + more).batch| + |more| + 1 ==
            |After(run).loop| + |After(run).batch|
  {
    var stopped := run + [RunNext];
    assert Front(stopped) == run;
    if more == [] {
      assert stopped + more == stopped;
      assert After(stopped).loop.Keys == After(run).loop.Keys;
      assert |After(run).loop| == |After(run).loop.Keys| && |After(stopped).loop| == |After(stopped).loop.Keys|;
    } else {
      assert Front(stopped + more) == stopped + Front(more) && Last(stopped + more) == Last(more);
      StopEndsTheLoop(run, Front(more));
      WindingStep(After(stopped + Front(more)), Last(more));
    }
  }

  /** Until then there is always such a step. */
  lemma WindingGoesOn(s: State) returns (e: Event)
    requires AllClose(s) && (s.loop != map[] || s.batch != []) && (s.batch != [] ==> s.batch[0] != Stop)
    ensures Winding(e) && Enabled(s, e) && Step(s, e).Some?
  {
    if s.batch != [] {
      e := RunNext;
    } else {
      var h :| h in s.loop;
      e := Closed(h);
    }
  }

  /** The batch never ran empty meanwhile. */
  ghost predicate Busy(run: seq<Event>, more: seq<Event>)
    decreases |more|
  {
    Legal(run + more) && After(run + more).batch != [] && (more == [] || Busy(run, Front(more)))
  }

  /** While the loop is busy with a batch, whatever is closing goes on closing ... */
  lemma {:induction false} ClosingWhileBusy(run: seq<Event>, more: seq<Event>, h: nat)
    requires Legal(run) && Busy(run, more) && h in After(run).loop && After(run).loop[h].closing
    ensures h in After(run + more).loop && After(run + more).loop[h].closing
  {
    if more == [] {
      assert run + more == run;
    } else {
      assert Front(run + more) == run + Front(more) && Last(run + more) == Last(more);
      ClosingWhileBusy(run, Front(more), h);
      MapsLiveAlways(run + Front(more));
      ClosingStays(After(run + Front(more)), Last(more), h);
    }
  }

  lemma ClosingStays(s: State, e: Event, h: nat)
    requires MapsLive(s) && s.batch != [] && Enabled(s, e) && Step(s, e).Some?
    requires h in s.loop && s.loop[h].closing
    ensures h in Step(s, e).value.loop && Step(s, e).value.loop[h].closing
  {
  }

  /** ... so a stop() in the batch in which another one has run, or a handle was removed, aborts the process. */
  lemma StopInABusyBatchAborts(run: seq<Event>, more: seq<Event>, h: nat)
    requires Legal(run) && Busy(run, more) && h in After(run).loop && After(run).loop[h].closing
    requires After(run + more).batch[0] == Stop
    ensures Step(After(run + more), RunNext) == None
  {
    ClosingWhileBusy(run, more, h);
  }

  // ---------- Wake-ups ----------

  /** Queued work has a wake-up coming. */
  ghost predicate WakeComes(s: State) {
    s.queue != [] ==> s.sent && s.async.Some?
  }

  /** It does, except for work that was queued before a stop() of the batch ran: its async handle is gone. */
  lemma StepKeepsWakeIff(s: State, e: Event)
    requires WakeComes(s) && Enabled(s, e) && Step(s, e).Some?
    ensures WakeComes(Step(s, e).value) <==> !(e == RunNext && s.batch[0] == Stop && s.queue != [])
  {
  }

  /** Whenever a stop() ran, nothing had been queued behind it. */
  ghost predicate NothingBehindStop(run: seq<Event>)
    requires Legal(run)
  {
    run == [] ||
    (NothingBehindStop(Front(run)) &&
     (Last(run).RunNext? && After(Front(run)).batch[0] == Stop ==> After(Front(run)).queue == []))
  }

  lemma {:induction false} WakesAlwaysCome(run: seq<Event>)
    requires Legal(run) && NothingBehindStop(run)
    ensures WakeComes(After(run))
  {
    if run != [] {
      WakesAlwaysCome(Front(run));
      StepKeepsWakeIff(After(Front(run)), Last(run));
    }
  }

  /** Work queued while stop() waits in the batch is stranded: the wake-up goes with the closed handle. */
  lemma WorkBehindStopIsStranded(work: Work)
    ensures var run := [AddAsync(Stop)] + [Wake] + [AddAsync(work)] + [RunNext];
            Legal(run) && After(run).queue == [work] && After(run).async == None && !WakeComes(After(run))
  {
    var r1 := [AddAsync(Stop)];
    var r2 := r1 + [Wake];
    var r3 := r2 + [AddAsync(work)];
    Extend([], AddAsync(Stop));
    assert [] + [AddAsync(Stop)] == r1;
    assert After(r1) == Init().(queue := [Stop], sent := true);
    Extend(r1, Wake);
    assert After(r2) == Init().(batch := [Stop]);
    Extend(r2, AddAsync(work));
    assert After(r3) == Init().(batch := [Stop], queue := [work], sent := true);
    assert NothingCloses(After(r3));
    Extend(r3, RunNext);
  }

  lemma Extend(run: seq<Event>, e: Event)
    requires Legal(run) && Enabled(After(run), e) && Step(After(run), e).Some?
    ensures Legal(run + [e]) && After(run + [e]) == Step(After(run), e).value
  {
    assert Front(run + [e]) == run;
  }

  function Nexts(k: nat): seq<Event> {
    seq(k, _ => RunNext)
  }

  lemma NextsSnoc(run: seq<Event>, k: nat)
    ensures (run + Nexts(k)) + [RunNext] == run + Nexts(k + 1)
  {
  }

  lemma NextOther(run: seq<Event>, rest: seq<Work>)
    requires Legal(run) && After(run).batch != [] && After(run).batch[0] != Stop && rest == After(run).batch[1..]
    ensures Legal(run + [RunNext]) && After(run + [RunNext]) == After(run).(batch := rest)
  {
    Extend(run, RunNext);
  }

  /** The next k callbacks of a batch run, if none of them is a stop(). */
  lemma {:induction false} RunBatch(run: seq<Event>, k: nat)
    requires Legal(run) && k <= |After(run).batch| && Stop !in After(run).batch[..k]
    ensures Legal(run + Nexts(k)) && After(run + Nexts(k)) == After(run).(batch := After(run).batch[k..])
  {
    if k == 0 {
      assert run + Nexts(0) == run;
    } else {
      var b := After(run).batch;
      BatchPart(b, k);
      RunBatch(run, k - 1);
      NextOther(run + Nexts(k - 1), b[k..]);
      NextsSnoc(run, k - 1);
    }
  }

  lemma BatchPart(b: seq<Work>, k: nat)
    requires 0 < k <= |b| && Stop !in b[..k]
    ensures Stop !in b[..k - 1] && b[k - 1..][0] != Stop && b[k - 1..][1..] == b[k..]
  {
    assert b[..k][k - 1] == b[k - 1];
    assert b[..k - 1] == b[..k][..k - 1];
  }

  /**
   Such work waits for the next add_async, and no longer: the rest of the batch runs, the loop wakes up, and then
   the stranded work runs before the new, in the order in which it was queued, as far as no stop() intervenes.
   */
  lemma NextAddRunsTheStranded(run: seq<Event>, work: Work, k: nat)
    requires Legal(run) && Stop !in After(run).batch
    requires k <= |After(run).queue| + 1 && Stop !in (After(run).queue + [work])[..k]
    ensures var s := After(run);
            var last := run + [AddAsync(work)] + Nexts(|s.batch|) + [Wake] + Nexts(k);
            Legal(last) && After(last).batch == (s.queue + [work])[k..] && After(last).queue == []
  {
    var s := After(run);
    Extend(run, AddAsync(work));
    var added := run + [AddAsync(work)];
    assert s.batch[..|s.batch|] == s.batch && s.batch[|s.batch|..] == [];
    RunBatch(added, |s.batch|);
    var idle := added + Nexts(|s.batch|);
    Extend(idle, Wake);
    RunBatch(idle + [Wake], k);
  }

  // ---------- The class ----------

  class EventServer {
    var next: nat
    var loop: map<nat, Uv>
    var timers: set<nat>
    var polls: map<int, nat>
    var async: Option<nat>
    var sent: bool
    var queue: seq<Work>
    var batch: seq<Work>
    ghost var deleted: multiset<nat>

    ghost function Abs(): State
      reads this
    {
      State(next, loop, timers, polls, async, sent, queue, batch, deleted)
    }

    constructor ()
      ensures Abs() == Init()
    {
      next, loop, timers, polls, async := 1, map[0 := Uv(Async, false)], {}, map[], Some(0);
      sent, queue, batch, deleted := false, [], [], multiset{};
    }

    method NewHandle(kind: Kind) returns (h: nat)
      modifies this`next, this`loop
      ensures h == old(next) && Abs() == Create(old(Abs()), kind)
    {
      h := next;
      next := next + 1;
      loop := loop[h := Uv(kind, false)];
    }

    /** uv_close; false when libuv aborts. */
    method UvClose(h: nat) returns (ok: bool)
      modifies this`loop
      ensures if ok then Close(old(Abs()), h) == Some(Abs()) else Close(old(Abs()), h) == None
    {
      if h !in loop || loop[h].closing {
        return false;
      }
      loop := loop[h := loop[h].(closing := true)];
      ok := true;
    }

    method AddAsync(work: Work)
      modifies this
      ensures Abs() == AddAsyncStep(old(Abs()), work)
    {
      if async == None {
        var h := NewHandle(Async);
        async := Some(h);
      }
      queue := queue + [work];
      sent := true;
    }

    method AddTimer() returns (h: nat)
      modifies this`next, this`loop, this`timers
      ensures Some(Abs()) == Step(old(Abs()), Event.AddTimer) && h == old(next)
      ensures timers == old(timers) + {h} && loop == old(loop)[h := Uv(Timer, false)]
    {
      h := NewHandle(Timer);
      timers := timers + {h};
    }

    method RemoveTimer(h: nat)
      requires MapsLive(Abs()) && h in timers
      modifies this`loop, this`timers
      ensures Some(Abs()) == Step(old(Abs()), Event.RemoveTimer(h)) && MapsLive(Abs())
      ensures timers == old(timers) - {h} && h in old(loop) && loop == old(loop)[h := Uv(Timer, true)]
    {
      StepMapsLive(Abs(), Event.RemoveTimer(h));
      assert Live(Abs(), h, Timer);
      var ok := UvClose(h);
      timers := timers - {h};
    }

    method AddPoll(desc: int)
      modifies this`next, this`loop, this`polls
      ensures Some(Abs()) == Step(old(Abs()), Event.AddPoll(desc))
      ensures polls == old(polls)[desc := old(next)] && loop == old(loop)[old(next) := Uv(Poll(desc), false)]
    {
      var h := NewHandle(Poll(desc));
      polls := polls[desc := h];
    }

    /** Both stop_poll and remove_poll. */
    method RemovePoll(desc: int)
      requires MapsLive(Abs()) && desc in polls
      modifies this`loop, this`polls
      ensures Some(Abs()) == Step(old(Abs()), Event.RemovePoll(desc)) && MapsLive(Abs())
      ensures polls == old(polls) - {desc} && loop == old(loop)[old(polls)[desc] := Uv(Poll(desc), true)]
    {
      StepMapsLive(Abs(), Event.RemovePoll(desc));
      assert Live(Abs(), polls[desc], Poll(desc));
      var ok := UvClose(polls[desc]);
      polls := polls - {desc};
    }

    /** uv_walk with uv_close, in whatever order libuv keeps its handles; false when libuv aborts. */
    method CloseAll() returns (ok: bool)
      modifies this`loop
      ensures ok <==> NothingCloses(old(Abs()))
      ensures ok ==> loop == AllClosing(old(loop))
    {
      var todo := loop.Keys;
      ghost var was := loop;
      while todo != {}
        invariant loop.Keys == was.Keys && todo <= was.Keys
        invariant forall h | h in was :: loop[h] == if h in todo then was[h] else was[h].(closing := true)
        invariant forall h | h in was && h !in todo :: !was[h].closing
        decreases |todo|
      {
        var h :| h in todo;
        ok := UvClose(h);
        if !ok {
          return;
        }
        todo := todo - {h};
      }
      ok := true;
    }

    /** The callback of stop(). */
    method OnStop() returns (ok: bool)
      modifies this`loop, this`timers, this`polls, this`async, this`sent
      ensures if ok then StopStep(old(Abs())) == Some(Abs()) else StopStep(old(Abs())) == None
    {
      ok := CloseAll();
      if ok {
        timers, polls, async, sent := {}, map[], None, false;
      }
    }

    /** uv_async_cb takes the whole queue ... */
    method Wake()
      requires Enabled(Abs(), Event.Wake)
      modifies this`sent, this`queue, this`batch
      ensures Some(Abs()) == Step(old(Abs()), Event.Wake)
    {
      sent := false;
      batch, queue := queue, [];
    }

    /** ... and runs it one by one; false when libuv aborts. */
    method RunNext() returns (ok: bool)
      requires batch != []
      modifies this
      ensures if ok then Step(old(Abs()), Event.RunNext) == Some(Abs()) else Step(old(Abs()), Event.RunNext) == None
    {
      var work := batch[0];
      batch := batch[1..];
      ok := true;
      if work == Stop {
        ok := OnStop();
      }
    }

    /** uv_close_cb */
    method Closed(h: nat)
      requires Enabled(Abs(), Event.Closed(h))
      modifies this`loop, this`deleted
      ensures Some(Abs()) == Step(old(Abs()), Event.Closed(h))
    {
      loop := loop - {h};
      deleted := deleted + multiset{h};
    }
  }
}
