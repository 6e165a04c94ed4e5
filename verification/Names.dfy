/** What the components share: bytes, names, statuses, the log of callback invocations, and the ends of a run. */
module Names {

  datatype Option<+T> = None | Some(value: T)

  datatype Result<+R, +E> = Success(value: R) | Failure(error: E)

  type Byte = x: int | 0 <= x < 256

  /** A host name, and an address in the text form the callbacks receive. */
  datatype Host = Host(text: string)
  datatype Ip = Ip(text: string)

  datatype Status = Ok | Error(msg: string)

  /** One invocation of a resolve callback: which callback, for which name, with what arguments. */
  datatype Delivery<+Cb> = Delivery(cb: Cb, name: Host, addrs: seq<Ip>, status: Status)

  function Last<T>(run: seq<T>): T
    requires run != []
  {
    run[|run| - 1]
  }

  function Front<T>(run: seq<T>): seq<T>
    requires run != []
  {
    run[..|run| - 1]
  }

  /** Every callback of `cbs`, in order, invoked with the same arguments. */
  function Deliver<Cb>(cbs: seq<Cb>, name: Host, addrs: seq<Ip>, status: Status): (out: seq<Delivery<Cb>>)
    ensures |out| == |cbs|
    ensures forall i | 0 <= i < |cbs| :: out[i] == Delivery(cbs[i], name, addrs, status)
  {
    seq(|cbs|, i requires 0 <= i < |cbs| => Delivery(cbs[i], name, addrs, status))
  }

  /** The callbacks a log invoked for one name, in order. */
  function CbsFor<Cb>(log: seq<Delivery<Cb>>, name: Host): seq<Cb> {
    if log == [] then []
    else CbsFor(log[..|log| - 1], name) + (if log[|log| - 1].name == name then [log[|log| - 1].cb] else [])
  }

  lemma Assoc<T>(a: seq<T>, b: seq<T>, c: seq<T>)
    ensures (a + b) + c == a + (b + c)
  {
  }

  lemma SwapMiddle<T>(a: seq<T>, b: seq<T>, c: seq<T>, d: seq<T>, e: seq<T>)
    requires b + c == d + e
    ensures (a + b) + c == (a + d) + e
  {
    assert (a + b) + c == a + (b + c);
    assert (a + d) + e == a + (d + e);
  }

  lemma CountSnoc<T>(s: seq<T>, x: T, y: T)
    ensures multiset(s + [x])[y] == multiset(s)[y] + if x == y then 1 else 0
  {
    assert multiset(s + [x]) == multiset(s) + multiset{x};
  }

  lemma CountConcat<T>(a: seq<T>, b: seq<T>, x: T)
    ensures multiset(a + b)[x] == multiset(a)[x] + multiset(b)[x]
  {
    assert multiset(a + b) == multiset(a) + multiset(b);
  }

  lemma CbsForOne<Cb>(d: Delivery<Cb>, name: Host)
    ensures CbsFor([d], name) == if d.name == name then [d.cb] else []
  {
    assert [d][..0] == [];
  }

  lemma CbsForConcat<Cb>(a: seq<Delivery<Cb>>, b: seq<Delivery<Cb>>, name: Host)
    ensures CbsFor(a + b, name) == CbsFor(a, name) + CbsFor(b, name)
  {
    if b == [] {
      assert a + b == a;
    } else {
      assert (a + b)[..|a + b| - 1] == a + b[..|b| - 1];
      CbsForConcat(a, b[..|b| - 1], name);
    }
  }

  lemma CbsForSnoc<Cb>(log: seq<Delivery<Cb>>, d: Delivery<Cb>, name: Host)
    ensures CbsFor(log + [d], name) == CbsFor(log, name) + if d.name == name then [d.cb] else []
  {
    assert (log + [d])[..|log|] == log;
  }

  lemma DeliverSnoc<Cb>(cbs: seq<Cb>, cb: Cb, name: Host, addrs: seq<Ip>, status: Status)
    ensures Deliver(cbs + [cb], name, addrs, status) ==
            Deliver(cbs, name, addrs, status) + [Delivery(cb, name, addrs, status)]
  {
  }

  lemma {:induction false} CbsForDeliver<Cb>(cbs: seq<Cb>, name: Host, addrs: seq<Ip>, status: Status, m: Host)
    ensures CbsFor(Deliver(cbs, name, addrs, status), m) == if m == name then cbs else []
  {
    if cbs != [] {
      var front, last := Front(cbs), Last(cbs);
      CbsForDeliver(front, name, addrs, status, m);
      assert cbs == front + [last];
      DeliverSnoc(front, last, name, addrs, status);
      CbsForSnoc(Deliver(front, name, addrs, status), Delivery(last, name, addrs, status), m);
    }
  }
}
