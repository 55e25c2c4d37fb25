/** The client[] array and high-water mark maxi that the select server
    (012_network_IO/01select/server.c) and the epoll server (012_network_IO/03epoll/server.c)
    keep of their connections. An entry is a descriptor, or negative when free. */
module ClientTable {
  import opened Totals

  datatype Table = Table(client: seq<int>, maxi: int)

  function Empty(capacity: nat): Table {
    Table(seq(capacity, _ => -1), -1)
  }

  /** Index of the first free entry, or the capacity. */
  function FirstFree(client: seq<int>): (i: nat)
    ensures i <= |client|
    ensures forall j :: 0 <= j < i ==> client[j] >= 0
    ensures i < |client| ==> client[i] < 0
  {
    if client == [] || client[0] < 0 then 0 else 1 + FirstFree(client[1..])
  }

  lemma {:induction false} FirstFreeAtMost(client: seq<int>, k: nat)
    requires k < |client| && client[k] < 0
    ensures FirstFree(client) <= k
  {
    if client[0] >= 0 {
      FirstFreeAtMost(client[1..], k - 1);
    }
  }

  /** The loop both servers look for a free entry with; the capacity when there is none. */
  method FindFree(client: array<int>) returns (i: nat)
    ensures i == FirstFree(client[..])
  {
    i := 0;
    while i < client.Length && client[i] >= 0
      invariant i <= FirstFree(client[..]) <= client.Length
    {
      i := i + 1;
    }
    if i < client.Length {
      FirstFreeAtMost(client[..], i);
    }
  }

  predicate Full(client: seq<int>) {
    FirstFree(client) == |client|
  }

  function Insert(t: Table, fd: int): Table
    requires !Full(t.client)
  {
    var i := FirstFree(t.client);
    Table(t.client[i := fd], if i > t.maxi then i else t.maxi)
  }

  /** Free every entry below m that holds fd. */
  function Clear(client: seq<int>, fd: int, m: nat): (r: seq<int>)
    ensures |r| == |client|
  {
    seq(|client|, j requires 0 <= j < |client| => if j < m && client[j] == fd then -1 else client[j])
  }

  function Live(client: seq<int>): set<int> {
    set x | x in client && x >= 0
  }

  ghost predicate Distinct(client: seq<int>) {
    forall i, j :: 0 <= i < j < |client| && client[i] == client[j] ==> client[i] < 0
  }

  // ---------- Against the history of connections ----------

  datatype Event = Opened(fd: int) | Closed(fd: int)

  function LiveAfter(log: seq<Event>): set<int> {
    if log == [] then {}
    else
      var before := LiveAfter(log[..|log| - 1]);
      match log[|log| - 1]
      case Opened(fd) => before + {fd}
      case Closed(fd) => before - {fd}
  }

  /** The largest number of clients ever connected at once. */
  function Peak(log: seq<Event>): nat {
    if log == [] then 0
    else
      var before := Peak(log[..|log| - 1]);
      var now := |LiveAfter(log)|;
      if now > before then now else before
  }

  /** The table after a history: its entries are the connected clients, each once, all at or
      below maxi; and maxi is exactly one less than the peak. */
  ghost predicate Agrees(t: Table, log: seq<Event>) {
    && Distinct(t.client)
    && -1 <= t.maxi < |t.client|
    && (forall j :: t.maxi < j < |t.client| ==> t.client[j] < 0)
    && Live(t.client) == LiveAfter(log)
    && t.maxi + 1 == Peak(log)
  }

  lemma EmptyAgrees(capacity: nat)
    ensures Agrees(Empty(capacity), [])
  {
    assert Live(Empty(capacity).client) == {};
  }

  function LiveWeight(x: int): nat { if x >= 0 then 1 else 0 }

  /** Distinct entries: as many clients as live entries. */
  lemma {:induction false} LiveSize(client: seq<int>)
    requires Distinct(client)
    ensures |Live(client)| == Total(client, LiveWeight)
  {
    if client == [] {
      assert Live(client) == {};
    } else {
      var n := |client| - 1;
      LastFresh(client);
      LastCounts(client);
      LiveSize(client[..n]);
    }
  }

  lemma LastFresh(client: seq<int>)
    requires client != [] && Distinct(client)
    ensures var n := |client| - 1;
            Distinct(client[..n]) && (client[n] >= 0 ==> client[n] !in Live(client[..n]))
  {
  }

  lemma LastCounts(client: seq<int>)
    requires client != []
    ensures var n := |client| - 1;
            var before := Live(client[..n]);
            Live(client) == before + (if client[n] >= 0 then {client[n]} else {})
  {
    var n := |client| - 1;
    assert forall x :: x in client <==> x in client[..n] || x == client[n];
  }

  /** Only the entries up to maxi can be live, and when all are, their number is maxi + 1. */
  lemma LiveAtMost(t: Table)
    requires Distinct(t.client) && -1 <= t.maxi < |t.client|
    requires forall j :: t.maxi < j < |t.client| ==> t.client[j] < 0
    ensures |Live(t.client)| <= t.maxi + 1
    ensures FirstFree(t.client) > t.maxi ==> |Live(t.client)| == t.maxi + 1
  {
    var low, high := t.client[..t.maxi + 1], t.client[t.maxi + 1..];
    assert t.client == low + high;
    TotalAppend(low, high, LiveWeight);
    TotalBounded(low, LiveWeight, 1);
    TotalBounded(high, LiveWeight, 0);
    LiveSize(t.client);
    if FirstFree(t.client) > t.maxi {
      TotalFull(low);
    }
  }

  lemma {:induction false} TotalFull(client: seq<int>)
    requires forall j :: 0 <= j < |client| ==> client[j] >= 0
    ensures Total(client, LiveWeight) == |client|
  {
    if client != [] {
      TotalFull(client[..|client| - 1]);
    }
  }

  /** Changing one entry to a free mark or to a new client. */
  lemma EntryChanged(client: seq<int>, i: nat, x: int)
    requires Distinct(client) && i < |client| && (x < 0 || x !in Live(client))
    ensures Distinct(client[i := x])
    ensures Live(client[i := x]) == Live(client) - {client[i]} + (if x >= 0 then {x} else {})
  {
    var after := client[i := x];
    EntryDistinct(client, i, x);
    forall y | y in Live(after)
      ensures y in Live(client) - {client[i]} + (if x >= 0 then {x} else {})
    {
      var j :| 0 <= j < |after| && after[j] == y;
      if j != i {
        assert client[j] == y;
      }
    }
    forall y | y in Live(client) - {client[i]} + (if x >= 0 then {x} else {})
      ensures y in Live(after)
    {
      if y == x {
        assert after[i] == y;
      } else {
        var j :| 0 <= j < |client| && client[j] == y;
        assert after[j] == y;
      }
    }
  }

  lemma EntryDistinct(client: seq<int>, i: nat, x: int)
    requires Distinct(client) && i < |client| && (x < 0 || x !in Live(client))
    ensures Distinct(client[i := x])
  {
    var after := client[i := x];
    forall j, k | 0 <= j < k < |after| && after[j] == after[k]
      ensures after[j] < 0
    {
      assert client[j] in client && client[k] in client;
    }
  }

  lemma LogSnoc(log: seq<Event>, e: Event)
    ensures LiveAfter(log + [e]) == if e.Opened? then LiveAfter(log) + {e.fd} else LiveAfter(log) - {e.fd}
    ensures Peak(log + [e]) ==
            if |LiveAfter(log + [e])| > Peak(log) then |LiveAfter(log + [e])| else Peak(log)
  {
    assert (log + [e])[..|log|] == log;
  }

  lemma InsertShape(t: Table, fd: int)
    requires -1 <= t.maxi < |t.client| && !Full(t.client)
    requires forall j :: t.maxi < j < |t.client| ==> t.client[j] < 0
    ensures var after := Insert(t, fd);
            && t.maxi <= after.maxi < |after.client|
            && (forall j :: after.maxi < j < |after.client| ==> after.client[j] < 0)
            && after.maxi == (if FirstFree(t.client) > t.maxi then t.maxi + 1 else t.maxi)
  {
    if t.maxi + 1 < |t.client| {
      FirstFreeAtMost(t.client, t.maxi + 1);
    }
  }

  /** A client goes into the least free entry, and the others stay. */
  lemma InsertPlaces(t: Table, fd: int, j: nat)
    requires j < |t.client| && t.client[j] < 0 && forall k :: 0 <= k < j ==> t.client[k] >= 0
    ensures !Full(t.client) && Insert(t, fd).client == t.client[j := fd]
    ensures Insert(t, fd).maxi == if t.maxi < j then j else t.maxi
  {
    FirstFreeAtMost(t.client, j);
  }

  /** First-free allocation keeps the table in agreement; the mark rises exactly with the peak. */
  lemma InsertAgrees(t: Table, log: seq<Event>, fd: int)
    requires Agrees(t, log) && fd >= 0 && fd !in Live(t.client) && !Full(t.client)
    ensures Agrees(Insert(t, fd), log + [Opened(fd)])
    ensures Live(Insert(t, fd).client) == Live(t.client) + {fd}
  {
    EntryChanged(t.client, FirstFree(t.client), fd);
    assert t.client[FirstFree(t.client)] !in Live(t.client);
    LogSnoc(log, Opened(fd));
    LiveAtMost(t);
    InsertShape(t, fd);
    hide Live, Distinct, LiveAfter, Peak, FirstFree;
    LiveAtMost(Insert(t, fd));
    InsertSets(Live(t.client), t.client[FirstFree(t.client)], fd);
  }

  lemma InsertSets(live: set<int>, free: int, fd: int)
    requires free !in live && fd !in live
    ensures live - {free} + {fd} == live + {fd} && |live + {fd}| == |live| + 1
  {
  }

  /** Freeing a client's entry keeps the table in agreement; the mark stays. */
  lemma RemoveAgrees(t: Table, log: seq<Event>, i: nat)
    requires Agrees(t, log) && i < |t.client| && t.client[i] >= 0
    ensures Agrees(t.(client := t.client[i := -1]), log + [Closed(t.client[i])])
    ensures Live(t.client[i := -1]) == Live(t.client) - {t.client[i]}
  {
    EntryChanged(t.client, i, -1);
    LogSnoc(log, Closed(t.client[i]));
    hide Live, Distinct, LiveAfter, Peak;
    LiveAtMost(t.(client := t.client[i := -1]));
  }

  lemma AgreesMark(t: Table, log: seq<Event>)
    requires Agrees(t, log)
    ensures -1 <= t.maxi < |t.client| && Distinct(t.client)
  {
  }

  /** Clearing a client's descriptor frees its one entry and leaves the others. */
  lemma ClearAgrees(t: Table, log: seq<Event>, fd: int)
    requires Agrees(t, log) && fd in Live(t.client)
    ensures Agrees(t.(client := Clear(t.client, fd, t.maxi + 1)), log + [Closed(fd)])
    ensures Live(Clear(t.client, fd, t.maxi + 1)) == Live(t.client) - {fd}
    ensures forall j :: 0 <= j < |t.client| ==>
              Clear(t.client, fd, t.maxi + 1)[j] == if t.client[j] == fd then -1 else t.client[j]
  {
    var i :| 0 <= i < |t.client| && t.client[i] == fd;
    RemoveAgrees(t, log, i);
    assert Clear(t.client, fd, t.maxi + 1) == t.client[i := -1];
  }

  /** There are never more clients than entries, and a full table has as many. */
  lemma FullSize(client: seq<int>)
    requires Distinct(client)
    ensures |Live(client)| <= |client|
    ensures Full(client) <==> |Live(client)| == |client|
  {
    LiveSize(client);
    TotalBounded(client, LiveWeight, 1);
    if Full(client) {
      TotalFull(client);
    } else {
      var i := FirstFree(client);
      TotalUpdate(client, i, 0, LiveWeight);
      TotalBounded(client[i := 0], LiveWeight, 1);
    }
  }

  lemma BoundedSet(s: set<int>, n: nat)
    requires forall x :: x in s ==> 0 <= x < n
    ensures |s| <= n
  {
    assert Below(n) == s + (Below(n) - s);
  }

  /** The descriptors 0 to n - 1. */
  function Below(n: nat): (r: set<int>)
    ensures |r| == n
    ensures forall x :: x in r <==> 0 <= x < n
  {
    if n == 0 then {} else Below(n - 1) + {n - 1}
  }

  /** The select server has as many entries as a descriptor set has descriptors, and one of
      those is the listener: with every descriptor in range the table is never full, so the
      "too many clients" exit cannot protect the descriptor set. */
  lemma NeverFullInRange(client: seq<int>, listenfd: int)
    requires Distinct(client) && 0 <= listenfd < |client| && listenfd !in Live(client)
    requires forall fd :: fd in Live(client) ==> fd < |client|
    ensures !Full(client)
  {
    BoundedSet(Live(client) + {listenfd}, |client|);
    FullSize(client);
  }

  // ---------- Whole histories ----------

  /** A history that can happen: only closed descriptors are opened, only open ones closed. */
  ghost predicate Plausible(log: seq<Event>) {
    log == [] ||
    (var n := |log| - 1;
     && Plausible(log[..n])
     && match log[n]
        case Opened(fd) => fd >= 0 && fd !in LiveAfter(log[..n])
        case Closed(fd) => fd in LiveAfter(log[..n]))
  }

  /** What keeping the table comes to: it overflows, which ends the server, or is kept. */
  datatype Kept = Overflow | Kept(t: Table)

  function Play(capacity: nat, log: seq<Event>): (r: Kept)
    ensures r.Kept? ==> -1 <= r.t.maxi
  {
    if log == [] then Kept(Empty(capacity))
    else
      match Play(capacity, log[..|log| - 1])
      case Overflow => Overflow
      case Kept(t) =>
        match log[|log| - 1]
        case Opened(fd) => if Full(t.client) then Overflow else Kept(Insert(t, fd))
        case Closed(fd) => Kept(t.(client := Clear(t.client, fd, t.maxi + 1)))
  }

  /** The "too many clients" exit is taken exactly in the histories with more clients at once
      than the table has entries; in all others the table agrees with the history, so its mark
      is one less than the peak. */
  lemma {:induction false} SurvivesIff(capacity: nat, log: seq<Event>)
    requires Plausible(log)
    ensures Play(capacity, log).Kept? <==> Peak(log) <= capacity
    ensures Play(capacity, log).Kept? ==>
              Agrees(Play(capacity, log).t, log) && |Play(capacity, log).t.client| == capacity
  {
    hide Agrees, Distinct, Live, Full, Insert, Clear, LiveAfter, Peak;
    if log == [] {
      EmptyAgrees(capacity);
      PeakStart();
    } else {
      var n := |log| - 1;
      var e := log[n];
      assert log == log[..n] + [e];
      SurvivesIff(capacity, log[..n]);
      LogSnoc(log[..n], e);
      if Play(capacity, log[..n]).Kept? {
        var t := Play(capacity, log[..n]).t;
        AgreesMark(t, log[..n]);
        AgreesSets(t, log[..n]);
        FullSize(t.client);
        if e.Opened? {
          OneMore(LiveAfter(log[..n]), e.fd);
          if !Full(t.client) {
            InsertAgrees(t, log[..n], e.fd);
            InsertWidth(t, e.fd);
          }
        } else {
          ClearAgrees(t, log[..n], e.fd);
          OneLess(LiveAfter(log[..n]), e.fd);
        }
      }
    }
  }

  lemma PeakStart()
    ensures Peak([]) == 0
  {
  }

  lemma AgreesSets(t: Table, log: seq<Event>)
    requires Agrees(t, log)
    ensures Live(t.client) == LiveAfter(log) && |LiveAfter(log)| <= Peak(log)
  {
    LiveAtMost(t);
  }

  lemma InsertWidth(t: Table, fd: int)
    requires !Full(t.client)
    ensures |Insert(t, fd).client| == |t.client|
  {
  }

  lemma OneMore(live: set<int>, fd: int)
    requires fd !in live
    ensures |live + {fd}| == |live| + 1
  {
  }

  lemma OneLess(live: set<int>, fd: int)
    ensures |live - {fd}| <= |live|
  {
    assert live == (live - {fd}) + (live * {fd});
  }
}
