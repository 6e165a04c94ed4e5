/**
 The handles of the libevent loop wrapper (base/EventServer.cpp) and the fetcher's socket and timer callbacks,
 which curl calls to have its sockets and its timer watched (Fetcher/Fetcher.cpp).

 Handles are numbered in the order of their creation, which stands for pointer identity. The loop runs one
 handler at a time; while it runs, it keeps its own handle alive.
 */
module Sockets {
  import opened Names

  datatype Kind = Timer(persist: bool) | Read(fd: int) | Write(fd: int)

  datatype Handle = Handle(kind: Kind, armed: bool)

  /** What socket_cb attaches to a socket. */
  datatype SocketCtx = SocketCtx(read: nat, write: nat)

  /** `freed` is the history: the handle objects deleted so far. */
  datatype State = State(
    next: nat,
    handles: map<nat, Handle>,
    running: Option<nat>,
    freed: multiset<nat>,
    sockets: map<int, SocketCtx>,
    timer: Option<nat>)

  datatype What = In | Out | InOut | Remove

  datatype Event =
    | SocketCb(fd: int, what: What)
    | TimerCb(timeout: int)
    | StopTimer
    | Enter(h: nat)
    | Leave

  const ASYNC: nat := 0
  const STATS: nat := 1

  // ---------- The loop's operations ----------

  function AddHandle(s: State, kind: Kind): State {
    s.(next := s.next + 1, handles := s.handles[s.next := Handle(kind, false)])
  }

  function Arm(s: State, h: nat, armed: bool): State
    requires h in s.handles
  {
    s.(handles := s.handles[h := s.handles[h].(armed := armed)])
  }

  /** The map gives its handle up; the object goes at once unless its own handler is running. */
  function RemoveHandle(s: State, h: nat): State {
    s.(handles := s.handles - {h}, freed := if s.running == Some(h) then s.freed else s.freed + multiset{h})
  }

  /** After the two loops' constructors: the handle of the async queue, and the fetcher's one-second timer. */
  function Init(): State {
    State(2, map[ASYNC := Handle(Timer(false), false), STATS := Handle(Timer(true), true)], None, multiset{}, map[], None)
  }

  // ---------- The fetcher's callbacks ----------

  function Attach(s: State, fd: int): State {
    if fd in s.sockets then s
    else AddHandle(AddHandle(s, Read(fd)), Write(fd)).(sockets := s.sockets[fd := SocketCtx(s.next, s.next + 1)])
  }

  ghost predicate Attached(s: State, fd: int) {
    fd in s.sockets && s.sockets[fd].read in s.handles && s.sockets[fd].write in s.handles
  }

  function Watch(s: State, fd: int, what: What): State
    requires Attached(s, fd)
  {
    var ctx := s.sockets[fd];
    match what
    case In => Arm(Arm(s, ctx.read, true), ctx.write, false)
    case Out => Arm(Arm(s, ctx.write, true), ctx.read, false)
    case InOut => Arm(Arm(s, ctx.read, true), ctx.write, true)
    case Remove => RemoveHandle(RemoveHandle(s, ctx.read), ctx.write).(sockets := s.sockets - {fd})
  }

  function TimerStep(s: State, timeout: int): State
    requires s.timer.Some? ==> s.timer.value in s.handles
  {
    if timeout < 0 then s
    else
      var t := if s.timer.Some? then s else AddHandle(s, Timer(false)).(timer := Some(s.next));
      Arm(t, t.timer.value, true)
  }

  /** A one-shot timer is no longer armed once it has fired. */
  function EnterStep(s: State, h: nat): State
    requires h in s.handles
  {
    (if s.handles[h].kind == Timer(false) then Arm(s, h, false) else s).(running := Some(h))
  }

  function LeaveStep(s: State): State {
    s.(running := None,
       freed := if s.running.Some? && s.running.value !in s.handles then s.freed + multiset{s.running.value} else s.freed)
  }

  /** Handlers run one at a time, when what they wait for was asked for; the async queue's is also woken by hand. */
  predicate Enabled(s: State, e: Event) {
    match e
    case SocketCb(_, _) => true
    case TimerCb(_) => true
    case StopTimer => s.timer.Some?
    case Enter(h) => s.running == None && h in s.handles && (h == ASYNC || s.handles[h].armed)
    case Leave => s.running.Some?
  }

  /** Every handle in the map has its one owner, and every owner its handles. */
  ghost predicate OwnedHandle(s: State, h: nat)
    requires h in s.handles
  {
    && h < s.next
    && match s.handles[h].kind
       case Timer(_) => h == ASYNC || h == STATS || s.timer == Some(h)
       case Read(fd) => fd in s.sockets && s.sockets[fd].read == h
       case Write(fd) => fd in s.sockets && s.sockets[fd].write == h
  }

  ghost predicate Owns(s: State, fd: int) {
    && Attached(s, fd)
    && s.handles[s.sockets[fd].read].kind == Read(fd)
    && s.handles[s.sockets[fd].write].kind == Write(fd)
  }

  ghost predicate IsTimer(s: State, h: nat) {
    h in s.handles && s.handles[h].kind.Timer?
  }

  ghost predicate IsOneShot(s: State, h: nat) {
    h in s.handles && s.handles[h].kind == Timer(false)
  }

  ghost predicate Valid(s: State) {
    && s.next >= 2
    && (forall h | h in s.handles :: OwnedHandle(s, h))
    && (forall fd | fd in s.sockets :: Owns(s, fd))
    && IsTimer(s, ASYNC) && IsTimer(s, STATS) && (s.timer.Some? ==> s.timer.value >= 2 && IsOneShot(s, s.timer.value))
    && (s.running.Some? ==> s.running.value < s.next)
  }

  function Step(s: State, e: Event): State
    requires Valid(s) && Enabled(s, e)
  {
    match e
    case SocketCb(fd, what) => Watch(Attach(s, fd), fd, what)
    case TimerCb(timeout) => TimerStep(s, timeout)
    case StopTimer => Arm(s, s.timer.value, false)
    case Enter(h) => EnterStep(s, h)
    case Leave => LeaveStep(s)
  }

  // ---------- Every step keeps the owners ----------

  lemma AttachValid(s: State, fd: int)
    requires Valid(s)
    ensures Valid(Attach(s, fd)) && fd in Attach(s, fd).sockets
  {
    var t := Attach(s, fd);
    forall h | h in t.handles
      ensures OwnedHandle(t, h)
    {
      if h in s.handles {
        assert OwnedHandle(s, h);
      }
    }
    forall f | f in t.sockets
      ensures Owns(t, f)
    {
      if f in s.sockets {
        assert Owns(s, f);
        assert OwnedHandle(s, s.sockets[f].read) && OwnedHandle(s, s.sockets[f].write);
      }
    }
    assert OwnedHandle(s, ASYNC) && OwnedHandle(s, STATS);
  }

  lemma ArmValid(s: State, h: nat, armed: bool)
    requires Valid(s) && h in s.handles
    ensures Valid(Arm(s, h, armed)) && Arm(s, h, armed).handles.Keys == s.handles.Keys
  {
    var t := Arm(s, h, armed);
    forall g | g in t.handles
      ensures OwnedHandle(t, g)
    {
      assert OwnedHandle(s, g);
    }
    forall f | f in t.sockets
      ensures Owns(t, f)
    {
      assert Owns(s, f);
    }
  }

  lemma RemoveValid(s: State, fd: int)
    requires Valid(s) && Attached(s, fd)
    ensures Valid(Watch(s, fd, Remove))
  {
    var t := Watch(s, fd, Remove);
    assert Owns(s, fd);
    forall h | h in t.handles
      ensures OwnedHandle(t, h)
    {
      assert OwnedHandle(s, h);
    }
    forall f | f in t.sockets
      ensures Owns(t, f)
    {
      assert Owns(s, f);
    }
  }

  lemma WatchValid(s: State, fd: int, what: What)
    requires Valid(s) && fd in s.sockets
    ensures Attached(s, fd) && Valid(Watch(s, fd, what))
  {
    assert Owns(s, fd);
    var ctx := s.sockets[fd];
    match what {
      case In =>
        ArmValid(s, ctx.read, true);
        ArmValid(Arm(s, ctx.read, true), ctx.write, false);
      case Out =>
        ArmValid(s, ctx.write, true);
        ArmValid(Arm(s, ctx.write, true), ctx.read, false);
      case InOut =>
        ArmValid(s, ctx.read, true);
        ArmValid(Arm(s, ctx.read, true), ctx.write, true);
      case Remove =>
        RemoveValid(s, fd);
    }
  }

  lemma NewTimerValid(s: State)
    requires Valid(s) && s.timer == None
    ensures Valid(AddHandle(s, Timer(false)).(timer := Some(s.next)))
  {
    var t := AddHandle(s, Timer(false)).(timer := Some(s.next));
    forall h | h in t.handles
      ensures OwnedHandle(t, h)
    {
      assert h in s.handles ==> OwnedHandle(s, h);
    }
    forall f | f in t.sockets
      ensures Owns(t, f)
    {
      assert Owns(s, f);
      assert OwnedHandle(s, s.sockets[f].read) && OwnedHandle(s, s.sockets[f].write);
    }
  }

  /** Who runs, and what was deleted, is no matter of ownership. */
  lemma RunningValid(s: State, running: Option<nat>, freed: multiset<nat>)
    requires Valid(s) && (running.Some? ==> running.value < s.next)
    ensures Valid(s.(running := running, freed := freed))
  {
    var t := s.(running := running, freed := freed);
    forall h | h in t.handles
      ensures OwnedHandle(t, h)
    {
      assert OwnedHandle(s, h);
    }
    forall f | f in t.sockets
      ensures Owns(t, f)
    {
      assert Owns(s, f);
    }
  }

  lemma TimerValid(s: State, e: Event)
    requires Valid(s) && Enabled(s, e) && (e.TimerCb? || e.StopTimer? || e.Enter? || e.Leave?)
    ensures Valid(Step(s, e))
  {
    match e {
      case TimerCb(timeout) =>
        if timeout >= 0 {
          var t := if s.timer.Some? then s else AddHandle(s, Timer(false)).(timer := Some(s.next));
          if s.timer == None {
            NewTimerValid(s);
          }
          ArmValid(t, t.timer.value, true);
        }
      case StopTimer =>
        ArmValid(s, s.timer.value, false);
      case Enter(h) =>
        ArmValid(s, h, false);
        var t := if s.handles[h].kind == Timer(false) then Arm(s, h, false) else s;
        assert OwnedHandle(s, h);
        RunningValid(t, Some(h), t.freed);
      case Leave =>
        RunningValid(s, None, Step(s, e).freed);
    }
  }

  lemma StepValid(s: State, e: Event)
    requires Valid(s) && Enabled(s, e)
    ensures Valid(Step(s, e))
  {
    if e.SocketCb? {
      AttachValid(s, e.fd);
      WatchValid(Attach(s, e.fd), e.fd, e.what);
    } else {
      TimerValid(s, e);
    }
  }

  // ---------- Runs ----------

  ghost predicate Legal(run: seq<Event>)
    decreases |run|, 0
  {
    run == [] || (Legal(Front(run)) && Enabled(After(Front(run)), Last(run)))
  }

  ghost function After(run: seq<Event>): (s: State)
    requires Legal(run)
    ensures Valid(s)
    decreases |run|, 1
  {
    if run == [] then Init()
    else
      StepValid(After(Front(run)), Last(run));
      Step(After(Front(run)), Last(run))
  }

  // ---------- What curl asked for last ----------

  function Requested(e: Event, fd: int, before: Option<What>): Option<What> {
    if !e.SocketCb? || e.fd != fd then before else if e.what == Remove then None else Some(e.what)
  }

  /** The last request for a socket since it was last removed. */
  function LastRequest(run: seq<Event>, fd: int): Option<What> {
    if run == [] then None else Requested(Last(run), fd, LastRequest(Front(run), fd))
  }

  /** A socket is attached while it is requested, and its two handles are armed as requested. */
  ghost predicate Follows(s: State, fd: int, request: Option<What>) {
    && (fd in s.sockets <==> request.Some?)
    && (fd in s.sockets ==>
          && Owns(s, fd)
          && (s.handles[s.sockets[fd].read].armed <==> request == Some(In) || request == Some(InOut))
          && (s.handles[s.sockets[fd].write].armed <==> request == Some(Out) || request == Some(InOut)))
  }

  lemma OtherFollows(s: State, fd: int, what: What, other: int, request: Option<What>)
    requires Valid(s) && fd in s.sockets && fd != other && Follows(s, other, request)
    ensures Attached(s, fd) && Follows(Watch(s, fd, what), other, request)
  {
    assert Owns(s, fd);
  }

  lemma SameFollows(s: State, fd: int, what: What)
    requires Valid(s) && fd in s.sockets
    ensures Attached(s, fd) && Follows(Watch(s, fd, what), fd, if what == Remove then None else Some(what))
  {
    assert Owns(s, fd);
  }

  lemma AttachFollows(s: State, fd: int, other: int, request: Option<What>)
    requires Valid(s) && fd != other && Follows(s, other, request)
    ensures Follows(Attach(s, fd), other, request)
  {
    if other in s.sockets {
      assert OwnedHandle(s, s.sockets[other].read) && OwnedHandle(s, s.sockets[other].write);
    }
  }

  lemma StepFollows(s: State, e: Event, fd: int, request: Option<What>)
    requires Valid(s) && Enabled(s, e) && Follows(s, fd, request)
    ensures Follows(Step(s, e), fd, Requested(e, fd, request))
  {
    if e.SocketCb? {
      AttachValid(s, e.fd);
      if e.fd == fd {
        SameFollows(Attach(s, fd), fd, e.what);
      } else {
        AttachFollows(s, e.fd, fd, request);
        OtherFollows(Attach(s, e.fd), e.fd, e.what, fd, request);
      }
    } else if fd in s.sockets {
      assert OwnedHandle(s, s.sockets[fd].read) && OwnedHandle(s, s.sockets[fd].write);
    }
  }

  // ---------- What curl asked of its timer ----------

  predicate TimerArmed(s: State) {
    s.timer.Some? && s.timer.value in s.handles && s.handles[s.timer.value].armed
  }

  /** A request with a timeout arms the timer; stopping it and its firing disarm it; nothing else touches it. */
  lemma StepTimerArmed(s: State, e: Event)
    requires Valid(s) && Enabled(s, e)
    ensures TimerArmed(Step(s, e)) <==>
            match e
            case TimerCb(timeout) => timeout >= 0 || TimerArmed(s)
            case StopTimer => false
            case Enter(h) => s.timer != Some(h) && TimerArmed(s)
            case _ => TimerArmed(s)
  {
    if e.SocketCb? {
      AttachValid(s, e.fd);
      SocketKeepsTimer(Attach(s, e.fd), e.fd, e.what);
      assert s.timer.Some? ==> OwnedHandle(s, s.timer.value);
    }
  }

  lemma SocketKeepsTimer(s: State, fd: int, what: What)
    requires Valid(s) && fd in s.sockets
    ensures Attached(s, fd) && (TimerArmed(Watch(s, fd, what)) <==> TimerArmed(s))
  {
    assert Owns(s, fd);
  }

  /** curl's last request was for a timeout, which has not run out yet. */
  ghost predicate Wanted(run: seq<Event>)
    requires Legal(run)
  {
    run != [] &&
    match Last(run)
    case TimerCb(timeout) => timeout >= 0
    case Enter(h) => After(Front(run)).timer != Some(h) && Wanted(Front(run))
    case _ => Wanted(Front(run))
  }

  /** curl's last request was to delete the timer, while it was armed, and nothing has disarmed it since. */
  ghost predicate DeleteIgnored(run: seq<Event>)
    requires Legal(run)
  {
    run != [] &&
    match Last(run)
    case TimerCb(timeout) => timeout < 0 && TimerArmed(After(Front(run)))
    case StopTimer => false
    case Enter(h) => After(Front(run)).timer != Some(h) && DeleteIgnored(Front(run))
    case _ => DeleteIgnored(Front(run))
  }

  /** The fetcher stopped a timer that curl wanted, and curl has made no request since. */
  ghost predicate StoppedUnasked(run: seq<Event>)
    requires Legal(run)
  {
    run != [] &&
    match Last(run)
    case TimerCb(_) => false
    case StopTimer => Wanted(Front(run))
    case Enter(h) => After(Front(run)).timer != Some(h) && StoppedUnasked(Front(run))
    case _ => StoppedUnasked(Front(run))
  }

  lemma {:induction false} TimerHistory(run: seq<Event>)
    requires Legal(run)
    ensures TimerArmed(After(run)) <==> DeleteIgnored(run) || (Wanted(run) && !StoppedUnasked(run))
    ensures !(DeleteIgnored(run) && Wanted(run)) && (StoppedUnasked(run) ==> Wanted(run))
  {
    if run != [] {
      TimerHistory(Front(run));
      StepTimerArmed(After(Front(run)), Last(run));
    }
  }

  // ---------- Which handles are deleted ----------

  /** A handle is deleted once, when the map gave it up and its handler is not running. */
  ghost predicate FreedOnce(s: State, h: nat) {
    s.freed[h] == if h < s.next && h !in s.handles && s.running != Some(h) then 1 else 0
  }

  lemma WatchFreed(s: State, fd: int, what: What, h: nat)
    requires Valid(s) && fd in s.sockets && FreedOnce(s, h)
    ensures Attached(s, fd) && FreedOnce(Watch(s, fd, what), h)
  {
    assert Owns(s, fd);
    var ctx := s.sockets[fd];
    assert OwnedHandle(s, ctx.read) && OwnedHandle(s, ctx.write);
    if what == Remove {
      RemoveFreed(s, ctx.read, h);
      RemoveFreed(RemoveHandle(s, ctx.read), ctx.write, h);
    }
  }

  lemma RemoveFreed(s: State, r: nat, h: nat)
    requires r in s.handles && r < s.next && FreedOnce(s, h)
    ensures FreedOnce(RemoveHandle(s, r), h)
  {
  }

  lemma StepFreed(s: State, e: Event, h: nat)
    requires Valid(s) && Enabled(s, e) && FreedOnce(s, h)
    ensures FreedOnce(Step(s, e), h)
  {
    if e.SocketCb? {
      AttachValid(s, e.fd);
      assert FreedOnce(Attach(s, e.fd), h);
      WatchFreed(Attach(s, e.fd), e.fd, e.what, h);
    }
  }

  // ---------- How many handles there are ----------

  lemma Updated<K, V>(m: map<K, V>, k: K, v: V)
    ensures |m[k := v]| == |m| + if k in m then 0 else 1
  {
    assert m[k := v].Keys == m.Keys + {k};
    assert |m| == |m.Keys| && |m[k := v]| == |m[k := v].Keys|;
  }

  lemma Removed<K, V>(m: map<K, V>, k: K)
    requires k in m
    ensures |m - {k}| == |m| - 1
  {
    assert (m - {k}).Keys == m.Keys - {k};
    assert |m| == |m.Keys| && |m - {k}| == |(m - {k}).Keys|;
  }

  /** Two handles for each socket, the two of the constructors, and curl's timer once it was asked for. */
  ghost predicate Counted(s: State) {
    |s.handles| == 2 * |s.sockets| + if s.timer.Some? then 3 else 2
  }

  lemma ArmCounts(s: State, h: nat, armed: bool)
    requires h in s.handles
    ensures |Arm(s, h, armed).handles| == |s.handles|
  {
    Updated(s.handles, h, s.handles[h].(armed := armed));
  }

  lemma AttachCounts(s: State, fd: int)
    requires Valid(s) && Counted(s)
    ensures Counted(Attach(s, fd))
  {
    if fd !in s.sockets {
      assert forall h | h in s.handles :: OwnedHandle(s, h);
      Updated(s.handles, s.next, Handle(Read(fd), false));
      Updated(AddHandle(s, Read(fd)).handles, s.next + 1, Handle(Write(fd), false));
      Updated(s.sockets, fd, SocketCtx(s.next, s.next + 1));
    }
  }

  lemma WatchCounts(s: State, fd: int, what: What)
    requires Valid(s) && Counted(s) && fd in s.sockets
    ensures Attached(s, fd) && Counted(Watch(s, fd, what))
  {
    assert Owns(s, fd);
    var ctx := s.sockets[fd];
    match what {
      case In =>
        ArmCounts(s, ctx.read, true);
        ArmCounts(Arm(s, ctx.read, true), ctx.write, false);
      case Out =>
        ArmCounts(s, ctx.write, true);
        ArmCounts(Arm(s, ctx.write, true), ctx.read, false);
      case InOut =>
        ArmCounts(s, ctx.read, true);
        ArmCounts(Arm(s, ctx.read, true), ctx.write, true);
      case Remove =>
        Removed(s.handles, ctx.read);
        Removed(RemoveHandle(s, ctx.read).handles, ctx.write);
        Removed(s.sockets, fd);
    }
  }

  lemma StepCounts(s: State, e: Event)
    requires Valid(s) && Enabled(s, e) && Counted(s)
    ensures Counted(Step(s, e))
  {
    match e {
      case SocketCb(fd, what) =>
        AttachValid(s, fd);
        AttachCounts(s, fd);
        WatchCounts(Attach(s, fd), fd, what);
      case TimerCb(timeout) =>
        assert s.next in s.handles ==> OwnedHandle(s, s.next);
        Updated(s.handles, s.next, Handle(Timer(false), false));
        if timeout >= 0 {
          var t := if s.timer.Some? then s else AddHandle(s, Timer(false)).(timer := Some(s.next));
          ArmCounts(t, t.timer.value, true);
        }
      case StopTimer =>
        ArmCounts(s, s.timer.value, false);
      case Enter(h) =>
        ArmCounts(s, h, false);
      case Leave =>
    }
  }

  // ---------- Main results ----------

  lemma {:induction false} FollowsAlways(run: seq<Event>, fd: int)
    requires Legal(run)
    ensures Follows(After(run), fd, LastRequest(run, fd))
  {
    if run != [] {
      FollowsAlways(Front(run), fd);
      StepFollows(After(Front(run)), Last(run), fd, LastRequest(Front(run), fd));
    }
  }

  lemma {:induction false} CountedAlways(run: seq<Event>)
    requires Legal(run)
    ensures Counted(After(run))
  {
    if run == [] {
      assert Init().handles.Keys == {ASYNC, STATS};
    } else {
      CountedAlways(Front(run));
      StepCounts(After(Front(run)), Last(run));
    }
  }

  lemma {:induction false} FreedAlways(run: seq<Event>, h: nat)
    requires Legal(run)
    ensures FreedOnce(After(run), h)
  {
    if run != [] {
      FreedAlways(Front(run), h);
      StepFreed(After(Front(run)), Last(run), h);
    }
  }

  /** Two handles of its own in the map, one for reading and one for writing, armed as requested. */
  ghost predicate Watched(s: State, fd: int, what: What) {
    && Attached(s, fd)
    && s.handles[s.sockets[fd].read] == Handle(Read(fd), what != Out)
    && s.handles[s.sockets[fd].write] == Handle(Write(fd), what != In)
  }

  lemma FollowsMeans(s: State, fd: int, request: Option<What>)
    requires Follows(s, fd, request) && request != Some(Remove)
    ensures request.Some? ==> Watched(s, fd, request.value)
  {
  }

  lemma {:induction false} NeverRemove(run: seq<Event>, fd: int)
    ensures LastRequest(run, fd) != Some(Remove)
  {
    if run != [] {
      NeverRemove(Front(run), fd);
    }
  }

  /** A socket is attached exactly while curl wants it watched, and it is then watched as curl last asked. */
  lemma SocketsAreWatchedAsRequested(run: seq<Event>, fd: int)
    requires Legal(run)
    ensures fd in After(run).sockets <==> LastRequest(run, fd).Some?
    ensures LastRequest(run, fd).Some? ==> Watched(After(run), fd, LastRequest(run, fd).value)
  {
    FollowsAlways(run, fd);
    NeverRemove(run, fd);
    FollowsMeans(After(run), fd, LastRequest(run, fd));
  }

  /**
   The timer is armed exactly when curl wants it, unless a request to delete it was ignored, or it was stopped
   without one; and in those two cases it is not.
   */
  lemma TimerFollowsRequestsIff(run: seq<Event>)
    requires Legal(run)
    ensures (TimerArmed(After(run)) <==> Wanted(run)) <==> !DeleteIgnored(run) && !StoppedUnasked(run)
  {
    TimerHistory(run);
  }

  /** The two handles of the constructors are as those left them. */
  ghost predicate BothAsMade(s: State) {
    && ASYNC in s.handles && s.handles[ASYNC] == Handle(Timer(false), false)
    && STATS in s.handles && s.handles[STATS] == Handle(Timer(true), true)
  }

  lemma WatchKeepsBoth(s: State, fd: int, what: What)
    requires Valid(s) && fd in s.sockets && BothAsMade(s)
    ensures Attached(s, fd) && BothAsMade(Watch(s, fd, what))
  {
    assert Owns(s, fd);
  }

  lemma StepKeepsBoth(s: State, e: Event)
    requires Valid(s) && Enabled(s, e) && BothAsMade(s)
    ensures BothAsMade(Step(s, e))
  {
    if e.SocketCb? {
      AttachValid(s, e.fd);
      WatchKeepsBoth(Attach(s, e.fd), e.fd, e.what);
    }
  }

  /** The statistics timer is armed in every reachable state, its own firing included; the async queue's handle never is. */
  lemma {:induction false} StatisticsTimerStaysArmed(run: seq<Event>)
    requires Legal(run)
    ensures BothAsMade(After(run))
  {
    if run != [] {
      StatisticsTimerStaysArmed(Front(run));
      StepKeepsBoth(After(Front(run)), Last(run));
    }
  }

  /** No handle leaks: each one in the map is a timer that is still referred to, or one of the two of an attached socket. */
  lemma EveryHandleIsOwned(run: seq<Event>, h: nat)
    requires Legal(run) && h in After(run).handles
    ensures var s := After(run);
            h in [ASYNC, STATS] || s.timer == Some(h) ||
            exists fd | fd in s.sockets :: s.sockets[fd].read == h || s.sockets[fd].write == h
    ensures |After(run).handles| == 2 * |After(run).sockets| + if After(run).timer.Some? then 3 else 2
  {
    CountedAlways(run);
    assert OwnedHandle(After(run), h);
  }

  lemma FreedMeans(s: State, h: nat)
    requires FreedOnce(s, h) && h < s.next
    ensures h in s.handles || s.running == Some(h) <==> h !in s.freed
    ensures s.freed[h] <= 1
  {
    assert h in s.freed <==> s.freed[h] > 0;
  }

  /**
   A handler may have its own handle removed: the object lives until the handler returns, and then, like
   every handle that was given up, has been deleted exactly once.
   */
  lemma RunningHandleOutlivesItsRemoval(run: seq<Event>, h: nat)
    requires Legal(run) && h < After(run).next
    ensures h in After(run).handles || After(run).running == Some(h) <==> h !in After(run).freed
    ensures After(run).freed[h] <= 1
    ensures After(run).running == Some(h) && h !in After(run).handles ==> LeaveStep(After(run)).freed[h] == 1
  {
    FreedAlways(run, h);
    FreedMeans(After(run), h);
  }

  // ---------- The class ----------

  /** The loop's handle map together with what curl and the fetcher remember of it. */
  class Watcher {
    var next: nat
    var handles: map<nat, Handle>
    var running: Option<nat>
    var freed: multiset<nat>
    var sockets: map<int, SocketCtx>
    var timer: Option<nat>

    function Abs(): State
      reads this
    {
      State(next, handles, running, freed, sockets, timer)
    }

    constructor ()
      ensures Abs() == Init() && Valid(Abs())
    {
      next, running, freed, sockets, timer := 2, None, multiset{}, map[], None;
      handles := map[ASYNC := Handle(Timer(false), false), STATS := Handle(Timer(true), true)];
    }

    /** add_timer and add_fd. */
    method Add(kind: Kind) returns (h: nat)
      modifies this`next, this`handles
      ensures h == old(next) && Abs() == AddHandle(old(Abs()), kind)
    {
      h := next;
      next := next + 1;
      handles := handles[h := Handle(kind, false)];
    }

    method Start(h: nat)
      requires h in handles
      modifies this`handles
      ensures Abs() == Arm(old(Abs()), h, true)
    {
      handles := handles[h := handles[h].(armed := true)];
    }

    method Stop(h: nat)
      requires h in handles
      modifies this`handles
      ensures Abs() == Arm(old(Abs()), h, false)
    {
      handles := handles[h := handles[h].(armed := false)];
    }

    method Drop(h: nat)
      requires h in handles
      modifies this`handles, this`freed
      ensures Abs() == RemoveHandle(old(Abs()), h)
    {
      handles := handles - {h};
      if running != Some(h) {
        freed := freed + multiset{h};
      }
    }

    method EnsureAttached(fd: int)
      modifies this`next, this`handles, this`sockets
      ensures Abs() == Attach(old(Abs()), fd)
    {
      if fd !in sockets {
        var read := Add(Read(fd));
        var write := Add(Write(fd));
        sockets := sockets[fd := SocketCtx(read, write)];
      }
    }

    /** Fetcher::socket_cb */
    method SocketCb(fd: int, what: What)
      requires Valid(Abs())
      modifies this`next, this`handles, this`sockets, this`freed
      ensures Valid(Abs()) && Abs() == Step(old(Abs()), Event.SocketCb(fd, what))
    {
      StepValid(Abs(), Event.SocketCb(fd, what));
      AttachValid(Abs(), fd);
      EnsureAttached(fd);
      var ctx := sockets[fd];
      assert Owns(Abs(), fd);
      match what {
        case In =>
          Start(ctx.read);
          Stop(ctx.write);
        case Out =>
          Start(ctx.write);
          Stop(ctx.read);
        case InOut =>
          Start(ctx.read);
          Start(ctx.write);
        case Remove =>
          Drop(ctx.read);
          Drop(ctx.write);
          sockets := sockets - {fd};
      }
    }

    /** Fetcher::timer_cb */
    method TimerCb(timeout: int)
      requires Valid(Abs())
      modifies this`next, this`handles, this`timer
      ensures Valid(Abs()) && Abs() == Step(old(Abs()), Event.TimerCb(timeout))
    {
      StepValid(Abs(), Event.TimerCb(timeout));
      if timeout >= 0 {
        if timer == None {
          var h := Add(Timer(false));
          timer := Some(h);
        }
        Start(timer.value);
      }
    }

    /** EventServer::ev_cb pins its handle while the handler runs ... */
    method Enter(h: nat)
      requires Valid(Abs()) && Enabled(Abs(), Event.Enter(h))
      modifies this`handles, this`running
      ensures Valid(Abs()) && Abs() == Step(old(Abs()), Event.Enter(h))
    {
      StepValid(Abs(), Event.Enter(h));
      if handles[h].kind == Timer(false) {
        Stop(h);
      }
      running := Some(h);
    }

    /** ... and lets go of it afterwards. */
    method Leave()
      requires Valid(Abs()) && Enabled(Abs(), Event.Leave)
      modifies this`running, this`freed
      ensures Valid(Abs()) && Abs() == Step(old(Abs()), Event.Leave)
    {
      StepValid(Abs(), Event.Leave);
      if running.value !in handles {
        freed := freed + multiset{running.value};
      }
      running := None;
    }
  }
}
