/**
 The scheduler of Spider/src/main/java/webcrawl/Scheduler.java: alternating scans of the table, and a fetch that
 retries until the server takes its one task.
 */
module Scheduler {
  import opened Names
  import CrawlContext
  import Fetcher

  // ---------- The group of a row ----------

  const MIN_LONG := -0x8000_0000_0000_0000

  type Long = x: int | MIN_LONG <= x < 0x8000_0000_0000_0000

  type Digest = d: seq<Byte> | |d| == 16 witness seq(16, _ => 0)

  /** What Math.abs can give. */
  type Hash = x: Long | x >= 0 || x == MIN_LONG

  /** Java's Math.abs: the smallest long has no counterpart and stays as it is. */
  function Abs(x: Long): Hash {
    if x == MIN_LONG then x else if x < 0 then -x else x
  }

  /** Java's % truncates: the result has the sign of the dividend. */
  function Rem(a: int, b: int): int
    requires b > 0
  {
    if a >= 0 then a % b else -((-a) % b)
  }

  function Unsigned(bytes: seq<Byte>): nat {
    if bytes == [] then 0 else 256 * Unsigned(Front(bytes)) + Last(bytes)
  }

  lemma {:induction false} UnsignedBound(bytes: seq<Byte>, n: nat)
    requires |bytes| == n <= 8
    ensures Unsigned(bytes) < Power256(n)
  {
    if n > 0 {
      UnsignedBound(Front(bytes), n - 1);
    }
  }

  function Power256(n: nat): nat {
    if n == 0 then 1 else 256 * Power256(n - 1)
  }

  /** BigInteger.longValue: the low 64 bits, in two's complement. */
  function LongValue(d: Digest): Long {
    var low := d[8..];
    UnsignedBound(low, 8);
    assert Power256(8) == 256 * (256 * (256 * (256 * (256 * (256 * (256 * 256))))));
    if Unsigned(low) >= 0x8000_0000_0000_0000 then Unsigned(low) - 0x1_0000_0000_0000_0000 else Unsigned(low)
  }

  /** The digest of a row's key; None if the platform has no MD5. */
  function Md5(d: Option<Digest>): Hash {
    if d.Some? then Abs(LongValue(d.value)) else 0
  }

  lemma AbsKeepsParity(x: Long)
    ensures Rem(Abs(x), 2) == x % 2
  {
  }

  lemma UnsignedParity(bytes: seq<Byte>)
    requires bytes != []
    ensures Unsigned(bytes) % 2 == Last(bytes) % 2
  {
    EvenPlus(128 * Unsigned(Front(bytes)), Last(bytes));
  }

  lemma EvenPlus(a: nat, b: nat)
    ensures (2 * a + b) % 2 == b % 2
  {
  }

  lemma WrapKeepsParity(u: nat)
    ensures ((u as int) - 0x1_0000_0000_0000_0000) % 2 == u % 2
  {
  }

  lemma LongParity(d: Digest)
    ensures LongValue(d) % 2 == d[15] % 2
  {
    UnsignedParity(d[8..]);
    WrapKeepsParity(Unsigned(d[8..]));
    assert Last(d[8..]) == d[15];
  }

  /** Every row is in group 0 or 1, by the parity of its digest's last byte, the smallest long included. */
  lemma GroupIsLastByteParity(d: Option<Digest>)
    ensures Rem(Md5(d), 2) == if d.Some? then d.value[15] % 2 else 0
  {
    if d.Some? {
      AbsKeepsParity(LongValue(d.value));
      LongParity(d.value);
    }
  }

  // ---------- What the scans fetch ----------

  /** A row of the table: its key, what md5() gives for it, and whether it has a download time. */
  datatype Row = Row(uri: string, md5: Hash, downloaded: bool)

  predicate Picks(row: Row, group: int) {
    Rem(row.md5, 2) == group && !row.downloaded
  }

  /** The rows one scan fetches, in table order. */
  function Picked(rows: seq<Row>, group: int): seq<Row> {
    if rows == [] then [] else Picked(Front(rows), group) + if Picks(Last(rows), group) then [Last(rows)] else []
  }

  /** The table each scan finds. */
  datatype Table = Table(rows: seq<Row>)

  /** The group of the n-th scan. */
  function GroupOf(n: nat): (g: int)
    ensures 0 <= g <= 1
  {
    if n == 0 then 0 else 1 - GroupOf(n - 1)
  }

  /** The rows all scans fetch. */
  function Wanted(tables: seq<Table>): seq<Row> {
    if tables == [] then [] else Wanted(Front(tables)) + Picked(Last(tables).rows, GroupOf(|tables| - 1))
  }

  lemma {:induction false} PickedCount(rows: seq<Row>, group: int, row: Row)
    ensures multiset(Picked(rows, group))[row] == if Picks(row, group) then multiset(rows)[row] else 0
  {
    if rows != [] {
      PickedCount(Front(rows), group, row);
      assert rows == Front(rows) + [Last(rows)];
      CountSnoc(Front(rows), Last(rows), row);
      CountSnoc(Picked(Front(rows), group), Last(rows), row);
      assert Picked(rows, group) ==
             if Picks(Last(rows), group) then Picked(Front(rows), group) + [Last(rows)] else Picked(Front(rows), group);
    }
  }

  lemma BothGroups(row: Row)
    ensures Picks(row, 0) || Picks(row, 1) <==> !row.downloaded
    ensures !(Picks(row, 0) && Picks(row, 1))
  {
  }

  lemma OneOfTwoScans(a: seq<Row>, b: seq<Row>, group: int, row: Row)
    requires 0 <= group <= 1 && multiset(a)[row] == multiset(b)[row]
    ensures multiset(Picked(a, group) + Picked(b, 1 - group))[row] == if row.downloaded then 0 else multiset(b)[row]
  {
    PickedCount(a, group, row);
    PickedCount(b, 1 - group, row);
    CountConcat(Picked(a, group), Picked(b, 1 - group), row);
    BothGroups(row);
  }

  lemma OneMoreScan(tables: seq<Table>, rest: seq<Table>)
    requires tables != [] && rest == Front(tables)
    ensures Wanted(tables) == Wanted(rest) + Picked(Last(tables).rows, GroupOf(|rest|))
  {
    assert |rest| == |tables| - 1;
    assert Wanted(tables) == Wanted(Front(tables)) + Picked(Last(tables).rows, GroupOf(|tables| - 1));
  }

  lemma TwoMoreScans(tables: seq<Table>, n: nat, group: int)
    requires n == |tables| >= 2 && group == GroupOf(n)
    ensures Wanted(tables) ==
            (Wanted(tables[..n - 2]) + Picked(tables[n - 2].rows, group)) + Picked(tables[n - 1].rows, 1 - group)
  {
    OneMoreScan(tables, tables[..n - 1]);
    OneMoreScan(tables[..n - 1], tables[..n - 2]);
    assert GroupOf(n) == 1 - GroupOf(n - 1);
    assert GroupOf(n - 1) == 1 - GroupOf(n - 2);
  }

  lemma Suffix<T>(before: seq<T>, first: seq<T>, second: seq<T>, all: seq<T>)
    requires all == (before + first) + second
    ensures before <= all && all[|before|..] == first + second
  {
  }

  lemma {:induction false} GroupIsParity(n: nat)
    ensures GroupOf(n) == n % 2
  {
    if n > 0 {
      GroupIsParity(n - 1);
    }
  }

  lemma PicksParity(row: Row, group: int)
    requires 0 <= group <= 1
    ensures Picks(row, group) <==> !row.downloaded && row.md5 % 2 == group
  {
  }

  /**
   The n-th scan, counted from zero, fetches the rows without download time whose hash has the parity of n, as often as the
   table has them, after all earlier scans; so the first one fetches the even ones.
   */
  lemma ScanFetchesItsParity(tables: seq<Table>, row: Row)
    requires tables != []
    ensures var before, n := Wanted(Front(tables)), |tables| - 1;
            && before <= Wanted(tables)
            && multiset(Wanted(tables)[|before|..])[row] ==
               if row.downloaded || row.md5 % 2 != n % 2 then 0 else multiset(Last(tables).rows)[row]
  {
    var before, n := Wanted(Front(tables)), |tables| - 1;
    var picked := Picked(Last(tables).rows, GroupOf(n));
    OneMoreScan(tables, Front(tables));
    assert (before + picked)[|before|..] == picked;
    PickedCount(Last(tables).rows, GroupOf(n), row);
    GroupIsParity(n);
    PicksParity(row, GroupOf(n));
  }

  /** A scan fetches its rows in table order. */
  lemma {:induction false} ScanKeepsOrder(a: seq<Row>, b: seq<Row>, group: int)
    ensures Picked(a + b, group) == Picked(a, group) + Picked(b, group)
  {
    if b == [] {
      assert a + b == a;
    } else {
      assert Front(a + b) == a + Front(b) && Last(a + b) == Last(b);
      ScanKeepsOrder(a, Front(b), group);
      Assoc(Picked(a, group), Picked(Front(b), group), if Picks(Last(b), group) then [Last(b)] else []);
    }
  }

  /**
   A row that two consecutive scans both find is fetched by exactly one of them if it has no download time, and by
   neither otherwise, whatever happens to the other rows in between; per occurrence, should it occur several times.
   */
  lemma TwoScansFetchEachNewRowOnce(tables: seq<Table>, row: Row)
    requires |tables| >= 2 && multiset(tables[|tables| - 2].rows)[row] == multiset(tables[|tables| - 1].rows)[row]
    ensures var before, all := Wanted(tables[..|tables| - 2]), Wanted(tables);
            && before <= all
            && multiset(all[|before|..])[row] == if row.downloaded then 0 else multiset(Last(tables).rows)[row]
  {
    var n, group := |tables|, GroupOf(|tables|);
    var first, second := Picked(tables[n - 2].rows, group), Picked(tables[n - 1].rows, 1 - group);
    TwoMoreScans(tables, n, group);
    Suffix(Wanted(tables[..n - 2]), first, second, Wanted(tables));
    OneOfTwoScans(tables[n - 2].rows, tables[n - 1].rows, group, row);
  }

  // ---------- Fetching with retries ----------

  /** Whether the server takes the task for a row when so many tasks are pending. */
  type Server = (nat, Row) -> bool

  /**
   How many of the wanted rows have a task after the server was asked k times: each time for the next row, with the
   number of tasks pending that `load` says. A rejected request leaves no task behind.
   */
  function Served(takes: Server, wanted: seq<Row>, load: seq<nat>, k: nat): (n: nat)
    requires k <= |load|
    ensures n <= |wanted| && n <= k
  {
    if k == 0 then 0
    else
      var n := Served(takes, wanted, load, k - 1);
      if n < |wanted| && takes(load[k - 1], wanted[n]) then n + 1 else n
  }

  /** fetch(): ask until the server accepts; false if it has not when the load is used up. */
  method Fetch(takes: Server, row: Row, load: seq<nat>, used: nat) returns (done: bool, used': nat)
    requires used <= |load|
    ensures used <= used' <= |load| && (!done ==> used' == |load|)
    ensures forall k | used <= k < (if done then used' - 1 else used') :: !takes(load[k], row)
    ensures done ==> used < used' && takes(load[used' - 1], row)
  {
    used' := used;
    while used' < |load|
      invariant used <= used' <= |load|
      invariant forall k | used <= k < used' :: !takes(load[k], row)
    {
      var accepted := takes(load[used'], row);
      used' := used' + 1;
      if accepted {
        return true, used';
      }
    }
    done := false;
  }

  lemma {:induction false} StillWaiting(takes: Server, wanted: seq<Row>, load: seq<nat>, used: nat, used': nat, n: nat)
    requires used <= used' <= |load| && n == Served(takes, wanted, load, used)
    requires n < |wanted| ==> forall k | used <= k < used' :: !takes(load[k], wanted[n])
    ensures Served(takes, wanted, load, used') == n
  {
    if used < used' {
      StillWaiting(takes, wanted, load, used, used' - 1, n);
    }
  }

  /** The next row is served at the first request that the server accepts. */
  lemma NextServed(takes: Server, wanted: seq<Row>, load: seq<nat>, used: nat, last: nat, n: nat)
    requires used <= last < |load| && n == Served(takes, wanted, load, used) && n < |wanted|
    requires takes(load[last], wanted[n]) && forall k | used <= k < last :: !takes(load[k], wanted[n])
    ensures Served(takes, wanted, load, last + 1) == n + 1
  {
    StillWaiting(takes, wanted, load, used, last, n);
  }

  lemma {:induction false} PickedPrefix(rows: seq<Row>, group: int, i: nat)
    requires i <= |rows|
    ensures Picked(rows[..i], group) <= Picked(rows, group)
  {
    if i == |rows| {
      assert rows[..i] == rows;
    } else {
      PickedPrefix(Front(rows), group, i);
      assert Front(rows)[..i] == rows[..i];
    }
  }

  /** The scan's next row, if it picks it, is the next wanted one. */
  lemma NextWanted(rows: seq<Row>, group: int, i: nat, before: seq<Row>, wanted: seq<Row>)
    requires i < |rows| && before + Picked(rows, group) <= wanted
    ensures var n := |before + Picked(rows[..i], group)|;
            if Picks(rows[i], group) then
              && n < |wanted| && wanted[n] == rows[i]
              && before + Picked(rows[..i + 1], group) == before + Picked(rows[..i], group) + [rows[i]]
            else Picked(rows[..i + 1], group) == Picked(rows[..i], group)
  {
    assert Front(rows[..i + 1]) == rows[..i];
    PickedPrefix(rows, group, i + 1);
    if Picks(rows[i], group) {
      Assoc(before, Picked(rows[..i], group), [rows[i]]);
    }
  }

  /** Whoever has been given a task is a first part of the wanted, as long as the requests so far allow. */
  ghost predicate Serving(takes: Server, wanted: seq<Row>, load: seq<nat>, used: nat, created: seq<Row>) {
    used <= |load| && created <= wanted && |created| == Served(takes, wanted, load, used)
  }

  /** The body of a scan's loop. */
  method Visit(takes: Server, row: Row, group: int, load: seq<nat>, used: nat, created: seq<Row>, ghost wanted: seq<Row>)
    returns (created': seq<Row>, done: bool, used': nat)
    requires Serving(takes, wanted, load, used, created)
    requires Picks(row, group) ==> |created| < |wanted| && wanted[|created|] == row
    ensures Serving(takes, wanted, load, used', created') && (!done ==> used' == |load|)
    ensures done ==> created' == if Picks(row, group) then created + [row] else created
  {
    created', done, used' := created, true, used;
    if Rem(row.md5, 2) == group {
      if !row.downloaded {
        done, used' := Fetch(takes, row, load, used);
        if done {
          NextServed(takes, wanted, load, used, used' - 1, |created|);
          created' := created + [row];
        } else {
          StillWaiting(takes, wanted, load, used, used', |created|);
        }
      }
    }
  }

  /** One scan: fetch the rows of the group that have no download time. */
  method Scan(takes: Server, rows: seq<Row>, group: int, load: seq<nat>, used: nat, before: seq<Row>, ghost wanted: seq<Row>)
    returns (created: seq<Row>, done: bool, used': nat)
    requires Serving(takes, wanted, load, used, before) && before + Picked(rows, group) <= wanted
    ensures Serving(takes, wanted, load, used', created)
    ensures if done then created == before + Picked(rows, group) else used' == |load|
  {
    created, done, used' := before, true, used;
    for i := 0 to |rows|
      invariant Serving(takes, wanted, load, used', created) && created == before + Picked(rows[..i], group)
    {
      NextWanted(rows, group, i, before, wanted);
      created, done, used' := Visit(takes, rows[i], group, load, used', created, wanted);
      if !done {
        return;
      }
    }
    done := true;
    assert rows[..|rows|] == rows;
  }

  lemma {:induction false} WantedPrefix(tables: seq<Table>, i: nat)
    requires i <= |tables|
    ensures Wanted(tables[..i]) <= Wanted(tables)
  {
    if i == |tables| {
      assert tables[..i] == tables;
    } else {
      WantedPrefix(Front(tables), i);
      assert Front(tables)[..i] == tables[..i];
    }
  }

  /** The i-th scan. */
  method NextScan(takes: Server, tables: seq<Table>, i: nat, group: int, load: seq<nat>, used: nat, before: seq<Row>)
    returns (created: seq<Row>, done: bool, used': nat)
    requires i < |tables| && group == GroupOf(i) && Serving(takes, Wanted(tables), load, used, before) && before == Wanted(tables[..i])
    ensures Serving(takes, Wanted(tables), load, used', created)
    ensures if done then created == Wanted(tables[..i + 1]) else used' == |load|
  {
    WantedPrefix(tables, i + 1);
    OneMoreScan(tables[..i + 1], tables[..i]);
    created, done, used' := Scan(takes, tables[i].rows, group, load, used, before, Wanted(tables));
  }

  /** run(): one scan after the other, until the load that the server is observed under is used up. */
  method Run(takes: Server, tables: seq<Table>, load: seq<nat>) returns (created: seq<Row>)
    ensures created == Wanted(tables)[..Served(takes, Wanted(tables), load, |load|)]
  {
    var used: nat, group, done := 0, 0, true;
    created := [];
    for i := 0 to |tables|
      invariant group == GroupOf(i) && Serving(takes, Wanted(tables), load, used, created) && created == Wanted(tables[..i])
    {
      created, done, used := NextScan(takes, tables, i, group, load, used, created);
      if !done {
        return;
      }
      group := (group + 1) % 2;
    }
    assert tables[..|tables|] == tables;
    StillWaiting(takes, Wanted(tables), load, used, |load|, |created|);
  }

  // ---------- With the fetch server on the other side ----------

  predicate HasHost(row: Row) {
    Fetcher.HostOf(Fetcher.TaskRequest(row.uri)).Some?
  }

  predicate Accepts(pending: nat, row: Row) {
    Fetcher.Acceptable(pending, [Fetcher.TaskRequest(row.uri)])
  }

  /** One request of fetch() to the server: it gains exactly the row's task, or nothing changes. */
  method Submit(server: Fetcher.Fetcher, row: Row, moment: Fetcher.Moment) returns (accepted: bool)
    requires server.Valid() && server.arriving == []
    modifies server`created, server`arriving, server`clock, server`dropped, server.resolver, server.es
    ensures server.Valid() && server.arriving == [] && (accepted <==> Accepts(old(|server.tasks|), row))
    ensures accepted ==> GainsTask(old(server.created), server.created, row)
    ensures !accepted ==> server.Abs() == old(server.Abs())
  {
    var request := [Fetcher.TaskRequest(row.uri)];
    var resp := server.CreateTasks(request, [moment]);
    accepted := resp.Success?;
    if accepted {
      assert resp.value == [resp.value[0]];
    }
  }

  /** One context more, for the host of the row's URI. */
  ghost predicate GainsTask(before: seq<CrawlContext.CrawlContext>, after: seq<CrawlContext.CrawlContext>, row: Row) {
    && |after| == |before| + 1 && before <= after
    && Fetcher.HostOf(Fetcher.TaskRequest(row.uri)) == Some(Last(after).host)
  }

  /**
   fetch() against the fetch server itself: a request is repeated, with the loop running a callback in between,
   until the server accepts. `load` are the numbers of pending tasks that the requests met. A fetch that returns has
   created one task, by its last request; no other request created any.
   */
  method FetchFrom(server: Fetcher.Fetcher, row: Row, moments: seq<Fetcher.Moment>) returns (done: bool, load: seq<nat>)
    requires server.Valid() && server.arriving == []
    modifies server, server.resolver, server.es
    ensures server.Valid() && server.arriving == []
    ensures forall k | 0 <= k < (if done then |load| - 1 else |load|) :: !Accepts(load[k], row)
    ensures if done then load != [] && Accepts(Last(load), row) && GainsTask(old(server.created), server.created, row)
            else |load| == |moments| && server.created == old(server.created)
  {
    done, load := false, [];
    for i := 0 to |moments|
      invariant server.Valid() && server.arriving == [] && server.created == old(server.created)
      invariant |load| == i && forall k | 0 <= k < i :: !Accepts(load[k], row)
    {
      load := load + [|server.tasks|];
      done := Submit(server, row, moments[i]);
      if done {
        return;
      }
      if server.es.batch != [] {
        var resp := server.RunNext();
      }
    }
  }

  /** How many rows come before the first one without a valid URI. */
  function ValidLead(valid: Row -> bool, rows: seq<Row>): (n: nat)
    ensures n <= |rows| && (forall i | 0 <= i < n :: valid(rows[i])) && (n < |rows| ==> !valid(rows[n]))
  {
    if rows == [] || !valid(rows[0]) then 0 else 1 + ValidLead(valid, rows[1..])
  }

  /** How many of the first k requests find room for a task. */
  function Rooms(load: seq<nat>, k: nat): nat
    requires k <= |load|
  {
    if k == 0 then 0 else Rooms(load, k - 1) + if load[k - 1] < Fetcher.MAX_TASKS_CNT then 1 else 0
  }

  lemma {:induction false} ServedCount(takes: Server, valid: Row -> bool, wanted: seq<Row>, load: seq<nat>, k: nat)
    requires k <= |load| && forall p: nat, row: Row :: takes(p, row) <==> p < Fetcher.MAX_TASKS_CNT && valid(row)
    ensures var lead, rooms := ValidLead(valid, wanted), Rooms(load, k);
            Served(takes, wanted, load, k) == if rooms < lead then rooms else lead
  {
    if k > 0 {
      ServedCount(takes, valid, wanted, load, k - 1);
    }
  }

  /**
   Every request that finds room gives the next wanted row its task, until a row without a valid URI is reached:
   that one is requested for ever, and no row after it is fetched.
   */
  lemma RoomsAndInvalidUrisDecide(tables: seq<Table>, load: seq<nat>, k: nat)
    requires k <= |load|
    ensures var lead, rooms := ValidLead(HasHost, Wanted(tables)), Rooms(load, k);
            Served(Accepts, Wanted(tables), load, k) == if rooms < lead then rooms else lead
  {
    forall p: nat, row: Row
      ensures Accepts(p, row) <==> p < Fetcher.MAX_TASKS_CNT && HasHost(row)
    {
      AcceptsIff(p, row);
    }
    ServedCount(Accepts, HasHost, Wanted(tables), load, k);
  }

  lemma AcceptsIff(pending: nat, row: Row)
    ensures Accepts(pending, row) <==> pending < Fetcher.MAX_TASKS_CNT && HasHost(row)
  {
    var request := [Fetcher.TaskRequest(row.uri)];
    assert forall t | t in request :: t == request[0];
    assert request[0] in request;
  }
}
