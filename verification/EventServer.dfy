/**
 The libevent loop wrapper of base/EventServer.cpp.

 First the asynchronous queue as a state machine. `active` is libevent's pending flag for the async
 handle: event_active sets it, and the loop clears it just before it runs the handler. `draining`
 says that the handler has started and has not yet swapped the queue out. The handler runs its batch
 without the lock, so callbacks may be added at any point, by the batch itself included.
 */
module EventServer {
  import opened Names

  datatype State<+Cb> = State(queue: seq<Cb>, batch: seq<Cb>, active: bool, draining: bool)

  datatype Event<+Cb> = Add(cb: Cb) | Fire | Swap | RunNext

  function Init<Cb>(): State<Cb> {
    State([], [], false, false)
  }

  function AddStep<Cb>(s: State<Cb>, cb: Cb): State<Cb> {
    s.(queue := s.queue + [cb], active := true)
  }

  predicate Idle<Cb>(s: State<Cb>) {
    s.batch == [] && !s.draining
  }

  predicate Enabled<Cb>(s: State<Cb>, e: Event<Cb>) {
    match e
    case Add(_) => true
    case Fire => s.active && Idle(s)
    case Swap => s.draining
    case RunNext => s.batch != []
  }

  function Step<Cb>(s: State<Cb>, e: Event<Cb>): State<Cb> {
    match e
    case Add(cb) => AddStep(s, cb)
    case Fire => s.(active := false, draining := true)
    case Swap => s.(batch := s.queue, queue := [], draining := false)
    case RunNext => if s.batch == [] then s else s.(batch := s.batch[1..])
  }

  // ---------- Runs ----------

  function After<Cb>(run: seq<Event<Cb>>): State<Cb> {
    if run == [] then Init() else Step(After(Front(run)), Last(run))
  }

  ghost predicate Legal<Cb>(run: seq<Event<Cb>>) {
    run == [] || (Legal(Front(run)) && Enabled(After(Front(run)), Last(run)))
  }

  function Added<Cb>(run: seq<Event<Cb>>): seq<Cb> {
    if run == [] then [] else Added(Front(run)) + if Last(run).Add? then [Last(run).cb] else []
  }

  /** How many callbacks were run. */
  function Ran<Cb>(run: seq<Event<Cb>>): nat {
    if run == [] then 0 else Ran(Front(run)) + if Last(run).RunNext? then 1 else 0
  }

  /** A swap can only find the batch empty, and work that is queued has a wake-up coming. */
  ghost predicate Sound<Cb>(s: State<Cb>) {
    && (s.draining ==> s.batch == [])
    && (s.queue != [] ==> s.active || s.draining)
  }

  lemma StepSound<Cb>(s: State<Cb>, e: Event<Cb>)
    requires Sound(s) && Enabled(s, e)
    ensures Sound(Step(s, e))
  {
  }

  /**
   At every point the callbacks added are, in order, those already run, the rest of the current batch,
   and the queue: the k-th callback run is the k-th added, none is lost and none runs twice.
   */
  lemma {:induction false} RunInOrder<Cb>(run: seq<Event<Cb>>)
    requires Legal(run)
    ensures Sound(After(run)) && Ran(run) <= |Added(run)|
    ensures Added(run)[Ran(run)..] == After(run).batch + After(run).queue
  {
    if run != [] {
      RunInOrder(Front(run));
      StepSound(After(Front(run)), Last(run));
      if Last(run).RunNext? {
        NextInOrder(Added(Front(run)), Ran(Front(run)), After(Front(run)).batch, After(Front(run)).queue);
      } else if Last(run).Add? {
        AddedLast(Added(Front(run)), Ran(Front(run)), After(Front(run)).batch, After(Front(run)).queue, Last(run).cb);
      }
    }
  }

  lemma AddedLast<Cb>(added: seq<Cb>, k: nat, batch: seq<Cb>, queue: seq<Cb>, cb: Cb)
    requires k <= |added| && added[k..] == batch + queue
    ensures (added + [cb])[k..] == batch + (queue + [cb])
  {
    assert (added + [cb])[k..] == added[k..] + [cb];
  }

  lemma NextInOrder<Cb>(added: seq<Cb>, k: nat, batch: seq<Cb>, queue: seq<Cb>)
    requires k <= |added| && added[k..] == batch + queue && batch != []
    ensures k < |added| && added[k] == batch[0] && added[k + 1..] == batch[1..] + queue
  {
    assert added[k] == added[k..][0];
    assert added[k + 1..] == added[k..][1..];
  }

  /** While anything added has not run, the loop has a step to take: no wake-up is lost. */
  lemma {:induction false} NoLostWakeup<Cb>(run: seq<Event<Cb>>)
    requires Legal(run) && Ran(run) < |Added(run)|
    ensures Enabled(After(run), Fire) || Enabled(After(run), Swap) || Enabled(After(run), RunNext)
  {
    RunInOrder(run);
    assert Added(run)[Ran(run)..] != [];
  }

  // ---------- The class ----------

  class EventServer<Cb> {
    var queue: seq<Cb>
    var batch: seq<Cb>
    var active: bool
    var draining: bool

    function Abs(): State<Cb>
      reads this
    {
      State(queue, batch, active, draining)
    }

    constructor ()
      ensures Abs() == Init()
    {
      queue, batch, active, draining := [], [], false, false;
    }

    method AddAsync(cb: Cb)
      modifies this
      ensures Abs() == AddStep(old(Abs()), cb)
    {
      queue := queue + [cb];
      active := true;
    }

    /** The loop picks the async event up. */
    method Fire()
      requires Enabled(Abs(), Event<Cb>.Fire)
      modifies this
      ensures Abs() == Step(old(Abs()), Event<Cb>.Fire)
    {
      active := false;
      draining := true;
    }

    /** The handler takes the whole queue as its batch. */
    method Swap()
      requires Enabled(Abs(), Event<Cb>.Swap)
      modifies this
      ensures Abs() == Step(old(Abs()), Event<Cb>.Swap)
    {
      batch, queue := queue, [];
      draining := false;
    }

    /** The next callback of the batch, which the caller runs. */
    method TakeNext() returns (cb: Cb)
      requires Enabled(Abs(), Event<Cb>.RunNext)
      modifies this
      ensures cb == old(Abs()).batch[0] && Abs() == Step(old(Abs()), Event<Cb>.RunNext)
    {
      cb := batch[0];
      batch := batch[1..];
    }
  }
}
