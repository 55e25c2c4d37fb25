/** 012_network_IO/01select/server.c: the service loop's bookkeeping. The kernel's answers are
    parameters: any ready set within the watched set, any unused descriptor from accept, any
    read result (0 when the client closed). */
module SelectServer {
  import opened ClientTable
  import opened IntSets

  datatype Outcome = Done | TooManyClients | SelectFailed

  /** The closings among the served descriptors, in order. */
  function Closings(served: seq<int>, got: map<int, int>): seq<Event>
    requires forall x :: x in served ==> x in got
  {
    if served == [] then []
    else
      var last := served[|served| - 1];
      Closings(served[..|served| - 1], got) + (if got[last] == 0 then [Closed(last)] else [])
  }

  function Hung(served: seq<int>, got: map<int, int>): set<int>
    requires forall x :: x in served ==> x in got
  {
    set x | x in served && got[x] == 0
  }

  lemma HungSnoc(served: seq<int>, last: int, got: map<int, int>)
    requires last in got && forall x :: x in served ==> x in got
    ensures Hung(served + [last], got) == Hung(served, got) + (if got[last] == 0 then {last} else {})
    ensures Closings(served + [last], got) == Closings(served, got) + (if got[last] == 0 then [Closed(last)] else [])
  {
    assert (served + [last])[..|served|] == served;
  }

  /** The clients of a table that are in the ready set, in table order. */
  function ReadyIn(client: seq<int>, rset: set<int>): seq<int> {
    if client == [] then []
    else
      var last := client[|client| - 1];
      ReadyIn(client[..|client| - 1], rset) + (if last >= 0 && last in rset then [last] else [])
  }

  ghost predicate NoRepeats(served: seq<int>) {
    forall i, j :: 0 <= i < j < |served| ==> served[i] != served[j]
  }

  lemma {:induction false} ReadyInMembers(client: seq<int>, rset: set<int>)
    requires Distinct(client)
    ensures NoRepeats(ReadyIn(client, rset))
    ensures forall x :: x in ReadyIn(client, rset) <==> x in Live(client) && x in rset
  {
    if client != [] {
      var n := |client| - 1;
      LastFresh(client);
      LastCounts(client);
      ReadyInMembers(client[..n], rset);
    }
  }

  function Members(served: seq<int>): set<int> {
    set x | x in served
  }

  lemma {:induction false} MembersSize(served: seq<int>)
    requires NoRepeats(served)
    ensures |Members(served)| == |served|
  {
    if served == [] {
      assert Members(served) == {};
    } else {
      var n := |served| - 1;
      MembersSize(served[..n]);
      assert served[n] !in Members(served[..n]);
      assert Members(served) == Members(served[..n]) + {served[n]};
    }
  }

  /** Growing the scanned part of the table only appends. */
  lemma {:induction false} ReadyInGrows(client: seq<int>, i: nat, rset: set<int>)
    requires i <= |client|
    ensures ReadyIn(client[..i], rset) <= ReadyIn(client, rset)
  {
    if i < |client| {
      var n := |client| - 1;
      assert client[..n][..i] == client[..i];
      ReadyInGrows(client[..n], i, rset);
    } else {
      assert client[..i] == client;
    }
  }

  /** Stopping is sound: when as many clients have been served as are ready, the entries not yet
      scanned hold none. */
  lemma EarlyExit(client: seq<int>, i: nat, rset: set<int>, wanted: set<int>)
    requires Distinct(client) && i <= |client|
    requires wanted == Live(client) * rset
    ensures |ReadyIn(client[..i], rset)| <= |wanted| == |ReadyIn(client, rset)|
    ensures |ReadyIn(client[..i], rset)| == |wanted| ==> ReadyIn(client[..i], rset) == ReadyIn(client, rset)
  {
    ReadyInMembers(client, rset);
    ReadyInGrows(client, i, rset);
    MembersSize(ReadyIn(client, rset));
    assert wanted == Members(ReadyIn(client, rset));
  }

  /** The entries past maxi are free, so scanning up to it is scanning the table. */
  lemma {:induction false} ReadyBelowMark(client: seq<int>, m: nat, rset: set<int>)
    requires m <= |client| && forall j :: m <= j < |client| ==> client[j] < 0
    ensures ReadyIn(client[..m], rset) == ReadyIn(client, rset)
  {
    if m < |client| {
      var n := |client| - 1;
      assert client[..n][..m] == client[..m];
      ReadyBelowMark(client[..n], m, rset);
    } else {
      assert client[..m] == client;
    }
  }

  /** The largest descriptor ever watched. */
  function Highest(listenfd: int, log: seq<Event>): int {
    if log == [] then listenfd
    else
      var before := Highest(listenfd, log[..|log| - 1]);
      var e := log[|log| - 1];
      if e.Opened? && e.fd > before then e.fd else before
  }

  lemma HighestNext(listenfd: int, log: seq<Event>, e: Event)
    ensures Highest(listenfd, log + [e]) ==
            if e.Opened? && e.fd > Highest(listenfd, log) then e.fd else Highest(listenfd, log)
  {
    assert (log + [e])[..|log|] == log;
  }

  /** What holds whenever the server calls select: the table agrees with the history, the
      watched set is the listener and the clients, and maxfd is the largest descriptor there
      has been, so it bounds the watched set. */
  ghost predicate Consistent(listenfd: int, t: Table, maxfd: int, allset: set<int>, log: seq<Event>) {
    && Agrees(t, log)
    && listenfd >= 0 && listenfd !in Live(t.client)
    && allset == {listenfd} + Live(t.client)
    && (forall fd :: fd in allset ==> fd <= maxfd)
    && maxfd == Highest(listenfd, log)
  }

  lemma RegisterKeeps(listenfd: int, t: Table, maxfd: int, allset: set<int>, log: seq<Event>, connfd: int)
    requires Consistent(listenfd, t, maxfd, allset, log)
    requires connfd >= 0 && connfd !in allset && !Full(t.client)
    ensures Consistent(listenfd, Insert(t, connfd), if connfd > maxfd then connfd else maxfd,
                       allset + {connfd}, log + [Opened(connfd)])
    ensures Live(Insert(t, connfd).client) == Live(t.client) + {connfd}
  {
    InsertAgrees(t, log, connfd);
    HighestNext(listenfd, log, Opened(connfd));
    WatchedWith(listenfd, Live(t.client), maxfd, allset, connfd);
    hide Agrees, Live, FirstFree;
  }

  lemma DropKeeps(listenfd: int, t: Table, maxfd: int, allset: set<int>, log: seq<Event>, i: nat)
    requires Consistent(listenfd, t, maxfd, allset, log) && i < |t.client| && t.client[i] >= 0
    ensures Consistent(listenfd, t.(client := t.client[i := -1]), maxfd, allset - {t.client[i]},
                       log + [Closed(t.client[i])])
    ensures Live(t.client[i := -1]) == Live(t.client) - {t.client[i]}
  {
    RemoveAgrees(t, log, i);
    HighestNext(listenfd, log, Closed(t.client[i]));
    assert t.client[i] in Live(t.client);
    WatchedWithout(listenfd, Live(t.client), allset, t.client[i]);
    hide Agrees, Live;
  }

  /** The scan's answer is the ready clients, each once. */
  lemma ServesAll(listenfd: int, t: Table, maxfd: int, allset: set<int>, log: seq<Event>, rset: set<int>)
    requires Consistent(listenfd, t, maxfd, allset, log) && rset - {listenfd} <= Live(t.client)
    ensures rset - {listenfd} == Live(t.client) * rset
    ensures NoRepeats(ReadyIn(t.client, rset))
    ensures forall x :: x in ReadyIn(t.client, rset) <==> x in rset - {listenfd}
  {
    ReadyInMembers(t.client, rset);
  }

  lemma ScanStart(client: seq<int>, rset: set<int>, got: map<int, int>)
    ensures ReadyIn(client[..0], rset) == [] && Hung([], got) == {} && Closings([], got) == []
  {
  }

  /** What serving one more client removes from the clients and adds to the history. */
  lemma ServedMore(live: set<int>, log: seq<Event>, served: seq<int>, fd: int, got: map<int, int>)
    requires fd in got && forall x :: x in served ==> x in got
    ensures forall x :: x in served + [fd] ==> x in got
    ensures live - Hung(served + [fd], got) == live - Hung(served, got) - (if got[fd] == 0 then {fd} else {})
    ensures log + Closings(served + [fd], got)
         == log + Closings(served, got) + (if got[fd] == 0 then [Closed(fd)] else [])
  {
    HungSnoc(served, fd, got);
  }

  lemma ReadyNext(client: seq<int>, i: nat, rset: set<int>)
    requires i < |client|
    ensures ReadyIn(client[..i + 1], rset) ==
            ReadyIn(client[..i], rset) + (if client[i] >= 0 && client[i] in rset then [client[i]] else [])
    ensures client[i] >= 0 ==> client[i] in Live(client)
  {
    assert client[..i + 1][..i] == client[..i];
  }

  /** The table, clients and history during a scan, with the clients served and still to serve. */
  datatype ScanState = ScanState(entries: seq<int>, clients: set<int>, log: seq<Event>, served: seq<int>, left: int)

  /** A scan that started in s0 and has passed the first i entries. */
  ghost predicate Scanned(s0: ScanState, rset: set<int>, got: map<int, int>, i: nat, s: ScanState) {
    && i <= |s0.entries| == |s.entries|
    && (forall j :: i <= j < |s.entries| ==> s.entries[j] == s0.entries[j])
    && s.served == ReadyIn(s0.entries[..i], rset) && s.left == s0.left - |s.served|
    && (forall x :: x in s.served ==> x in got)
    && s.clients == s0.clients - Hung(s.served, got)
    && s.log == s0.log + Closings(s.served, got)
  }

  lemma ScanMiss(s0: ScanState, rset: set<int>, got: map<int, int>, i: nat, s: ScanState)
    requires Scanned(s0, rset, got, i, s) && i < |s0.entries|
    requires s.entries[i] < 0 || s.entries[i] !in rset
    ensures Scanned(s0, rset, got, i + 1, s)
  {
    hide ReadyIn, Closings, Hung;
    ReadyNext(s0.entries, i, rset);
    assert s.served + [] == s.served;
  }

  lemma ScanHit(s0: ScanState, rset: set<int>, got: map<int, int>, i: nat, s: ScanState, r: ScanState)
    requires Scanned(s0, rset, got, i, s) && i < |s0.entries|
    requires s.entries[i] >= 0 && s.entries[i] in rset && s.entries[i] in got
    requires |r.entries| == |s.entries| && forall j :: i < j < |s.entries| ==> r.entries[j] == s.entries[j]
    requires r.served == s.served + [s.entries[i]] && r.left == s.left - 1
    requires r.clients == s.clients - (if got[s.entries[i]] == 0 then {s.entries[i]} else {})
    requires r.log == s.log + (if got[s.entries[i]] == 0 then [Closed(s.entries[i])] else [])
    ensures Scanned(s0, rset, got, i + 1, r)
  {
    hide ReadyIn, Closings, Hung;
    ReadyNext(s0.entries, i, rset);
    ServedMore(s0.clients, s0.log, s.served, s.entries[i], got);
  }

  lemma ScanBegin(listenfd: int, t: Table, maxfd: int, allset: set<int>, log: seq<Event>, rset: set<int>,
                  got: map<int, int>, s0: ScanState)
    requires Consistent(listenfd, t, maxfd, allset, log) && rset - {listenfd} <= Live(t.client)
    requires s0.entries == t.client && s0.served == []
    ensures Scanned(s0, rset, got, 0, s0)
    ensures rset - {listenfd} == Live(t.client) * rset && Distinct(t.client)
    ensures -1 <= t.maxi < |t.client| && forall j :: t.maxi < j < |t.client| ==> t.client[j] < 0
  {
    ServesAll(listenfd, t, maxfd, allset, log, rset);
    ScanStart(t.client, rset, got);
  }

  /** When a scan may stop: every ready client served, or the mark passed. */
  lemma ScanDone(s0: ScanState, rset: set<int>, got: map<int, int>, i: nat, s: ScanState, maxi: int, wanted: set<int>)
    requires Scanned(s0, rset, got, i, s) && Distinct(s0.entries)
    requires wanted == Live(s0.entries) * rset && s0.left == |wanted|
    requires -1 <= maxi < |s0.entries| && forall j :: maxi < j < |s0.entries| ==> s0.entries[j] < 0
    requires s.left == 0 || i == maxi + 1
    ensures s.served == ReadyIn(s0.entries, rset)
    ensures forall x :: x in s.served ==> x in got
    ensures s.clients == s0.clients - Hung(s.served, got) && s.log == s0.log + Closings(s.served, got)
  {
    hide Hung, Closings;
    if s.left == 0 {
      EarlyExit(s0.entries, i, rset, wanted);
    } else {
      ReadyBelowMark(s0.entries, i, rset);
    }
  }

  /** An entry about to be read has a read result. */
  lemma ReadyHere(s0: ScanState, rset: set<int>, got: map<int, int>, i: nat, s: ScanState, listenfd: int)
    requires Scanned(s0, rset, got, i, s) && i < |s0.entries|
    requires rset - {listenfd} == Live(s0.entries) * rset
    requires forall x :: x in rset - {listenfd} ==> x in got
    ensures s.entries[i] >= 0 && s.entries[i] in rset ==> s.entries[i] in got
  {
    assert s0.entries[i] in s0.entries;
  }

  lemma ReadyAreClients(listenfd: int, t: Table, maxfd: int, allset: set<int>, log: seq<Event>, rset: set<int>)
    requires Consistent(listenfd, t, maxfd, allset, log) && rset <= allset
    ensures rset - {listenfd} <= Live(t.client)
  {
  }

  lemma NothingServed(wanted: set<int>, got: map<int, int>, clients: set<int>, log: seq<Event>)
    requires |wanted| == 0
    ensures NoRepeats([]) && forall x :: x in [] <==> x in wanted
    ensures clients - Hung([], got) == clients && log + Closings([], got) == log
  {
    assert Hung([], got) == {};
  }

  /** The clients that leave are the ready ones whose read returned 0. */
  lemma HungMeans(live: set<int>, listenfd: int, served: seq<int>, got: map<int, int>, rset: set<int>)
    requires listenfd !in live && forall x :: x in served ==> x in got
    requires forall x :: x in served <==> x in rset - {listenfd}
    ensures forall fd :: fd in live ==> (fd in Hung(served, got) <==> fd in rset && got[fd] == 0)
  {
    forall fd | fd in live
      ensures fd in Hung(served, got) <==> fd in rset && got[fd] == 0
    {
      assert fd in served <==> fd in rset - {listenfd};
    }
  }

  lemma ListenerApart(listenfd: int, t: Table, maxfd: int, allset: set<int>, log: seq<Event>)
    requires Consistent(listenfd, t, maxfd, allset, log)
    ensures listenfd !in Live(t.client)
  {
  }

  class Server {
    const listenfd: int
    const client: array<int>
    var maxi: int
    var maxfd: int
    var allset: set<int>
    ghost var log: seq<Event>

    ghost function Entries(): (r: seq<int>)
      reads client
      ensures |r| == client.Length
    {
      client[..]
    }

    ghost function Clients(): (r: set<int>)
      reads client
      ensures r == Live(Entries())
    {
      Live(Entries())
    }

    ghost predicate Valid()
      reads this, client
    {
      Consistent(listenfd, Table(Entries(), maxi), maxfd, allset, log)
    }

    constructor (listenfd: int, capacity: nat)
      requires listenfd >= 0
      ensures Valid() && fresh(client) && client.Length == capacity && this.listenfd == listenfd
      ensures log == [] && allset == {listenfd} && Clients() == {}
    {
      this.listenfd := listenfd;
      client := new int[capacity](_ => -1);
      maxi, maxfd, allset, log := -1, listenfd, {listenfd}, [];
      new;
      assert Table(Entries(), maxi) == Empty(capacity);
      EmptyAgrees(capacity);
    }

    method Write(i: nat, fd: int)
      requires i < client.Length
      modifies client
      ensures Entries() == old(Entries())[i := fd]
    {
      client[i] := fd;
    }

    method Read(i: nat) returns (fd: int)
      requires i < client.Length
      ensures fd == Entries()[i]
    {
      fd := client[i];
    }

    /** Lines 59-77: register a new connection, unless every entry is taken. */
    method Register(connfd: int) returns (ok: bool)
      requires Valid() && connfd >= 0 && connfd !in allset
      modifies this, client
      ensures Valid()
      ensures ok <==> !Full(old(Entries()))
      ensures ok ==> Table(Entries(), maxi) == Insert(old(Table(Entries(), maxi)), connfd)
      ensures ok ==> Clients() == old(Clients()) + {connfd} && log == old(log) + [Opened(connfd)]
      ensures !ok ==> Entries() == old(Entries()) && maxi == old(maxi) && log == old(log) && allset == old(allset)
    {
      hide Consistent, Live, FirstFree;
      var i := FindFree(client);
      if i == client.Length {
        return false;
      }
      RegisterKeeps(listenfd, Table(Entries(), maxi), maxfd, allset, log, connfd);
      Write(i, connfd);
      allset := allset + {connfd};
      if connfd > maxfd {
        maxfd := connfd;
      }
      if i > maxi {
        maxi := i;
      }
      log := log + [Opened(connfd)];
      ok := true;
    }

    /** Lines 89-92: a client closed. */
    method Drop(i: nat)
      requires Valid() && i < client.Length && Entries()[i] >= 0
      modifies this, client
      ensures Valid() && maxi == old(maxi) && log == old(log) + [Closed(old(Entries())[i])]
      ensures Entries() == old(Entries())[i := -1]
      ensures Clients() == old(Clients()) - {old(Entries())[i]}
    {
      hide Consistent, Live, Entries;
      DropKeeps(listenfd, Table(Entries(), maxi), maxfd, allset, log, i);
      var sockfd := Read(i);
      allset := allset - {sockfd};
      log := log + [Closed(sockfd)];
      Write(i, -1);
    }

    /** Lines 84-99 for one entry: read from the client if it is ready, and drop it if it closed. */
    method ServeEntry(i: nat, rset: set<int>, got: map<int, int>) returns (hit: bool)
      requires Valid() && i < client.Length
      requires Entries()[i] >= 0 && Entries()[i] in rset ==> Entries()[i] in got
      modifies this, client
      ensures Valid() && maxi == old(maxi)
      ensures hit <==> old(Entries())[i] >= 0 && old(Entries())[i] in rset
      ensures !hit ==> Entries() == old(Entries()) && Clients() == old(Clients()) && log == old(log)
      ensures hit ==>
                var fd := old(Entries())[i];
                && (forall j :: 0 <= j < client.Length && j != i ==> Entries()[j] == old(Entries())[j])
                && Clients() == old(Clients()) - (if got[fd] == 0 then {fd} else {})
                && log == old(log) + (if got[fd] == 0 then [Closed(fd)] else [])
    {
      hide Consistent, Live, Entries;
      var sockfd := Read(i);
      hit := sockfd >= 0 && sockfd in rset;
      if hit && got[sockfd] == 0 {
        Drop(i);
      }
    }

    /** Lines 82-103: serve the clients in the ready set, stopping early once `nready` of them
        have been. */
    method Scan(rset: set<int>, got: map<int, int>, nready: nat) returns (served: seq<int>)
      requires Valid() && rset - {listenfd} <= Clients() && nready == |rset - {listenfd}|
      requires forall x :: x in rset - {listenfd} ==> x in got
      modifies this, client
      ensures Valid() && maxi == old(maxi)
      ensures served == ReadyIn(old(Entries()), rset)
      ensures forall x :: x in served ==> x in got
      ensures Clients() == old(Clients()) - Hung(served, got)
      ensures log == old(log) + Closings(served, got)
    {
      ghost var was, mark, wanted := Entries(), maxi, rset - {listenfd};
      ghost var s0 := ScanState(was, Clients(), log, [], nready);
      hide Consistent, Live, Distinct, Entries, ReadyIn, Hung, Closings, Scanned;
      ScanBegin(listenfd, Table(was, maxi), maxfd, allset, log, rset, got, s0);
      served := [];
      var left: int := nready;
      var i := 0;
      while i <= maxi
        invariant 0 <= i <= maxi + 1 && maxi == mark && Valid()
        invariant Scanned(s0, rset, got, i, ScanState(Entries(), Clients(), log, served, left))
      {
        ghost var s := ScanState(Entries(), Clients(), log, served, left);
        ReadyHere(s0, rset, got, i, s, listenfd);
        var sockfd := Read(i);
        var hit := ServeEntry(i, rset, got);
        if hit {
          served := served + [sockfd];
          left := left - 1;
          ScanHit(s0, rset, got, i, s, ScanState(Entries(), Clients(), log, served, left));
          if left == 0 {
            i := i + 1;
            break;
          }
        } else {
          ScanMiss(s0, rset, got, i, s);
        }
        i := i + 1;
      }
      ScanDone(s0, rset, got, i, ScanState(Entries(), Clients(), log, served, left), mark, wanted);
    }

    /** One pass of the loop: `nready` is select's result and `rset` the set it leaves; `connfd`
        is what accept would return, `got` what each read would. */
    method Round(nready: int, rset: set<int>, connfd: int, got: map<int, int>) returns (out: Outcome, served: seq<int>)
      requires Valid() && rset <= allset && (nready >= 0 ==> nready == |rset|)
      requires listenfd in rset ==> connfd >= 0 && connfd !in allset
      requires forall x :: x in rset - {listenfd} ==> x in got
      modifies this, client
      ensures Valid()
      ensures out == SelectFailed <==> nready < 0
      ensures out == TooManyClients <==> nready >= 0 && listenfd in rset && Full(old(Entries()))
      ensures out != Done ==> Entries() == old(Entries()) && maxi == old(maxi) && log == old(log) && served == []
      ensures out == Done ==> NoRepeats(served) && forall x :: x in served <==> x in rset - {listenfd}
      ensures forall x :: x in served ==> x in got
      ensures out == Done && listenfd in rset ==>
                && Clients() == old(Clients()) + {connfd} - Hung(served, got)
                && log == old(log) + [Opened(connfd)] + Closings(served, got)
      ensures out == Done && listenfd !in rset ==>
                && Clients() == old(Clients()) - Hung(served, got)
                && log == old(log) + Closings(served, got)
      ensures out == Done ==>
                forall fd :: fd in old(Clients()) ==> (fd in Clients() <==> !(fd in rset && got[fd] == 0))
    {
      hide Consistent, Live, Hung, Closings, ReadyIn, Full, Insert, Entries, Clients, NoRepeats;
      served := [];
      if nready < 0 {
        return SelectFailed, [];
      }
      ReadyAreClients(listenfd, Table(Entries(), maxi), maxfd, allset, log, rset);
      ListenerApart(listenfd, Table(Entries(), maxi), maxfd, allset, log);
      ghost var live := Clients();
      var left: int := nready;
      if listenfd in rset {
        var ok := Register(connfd);
        if !ok {
          return TooManyClients, [];
        }
        left := left - 1;
        assert |rset - {listenfd}| == left;
        if left == 0 {
          NothingServed(rset - {listenfd}, got, Clients(), log);
          HungMeans(live, listenfd, [], got, rset);
          return Done, [];
        }
      } else {
        assert rset - {listenfd} == rset;
      }
      ServesAll(listenfd, Table(Entries(), maxi), maxfd, allset, log, rset);
      served := Scan(rset, got, left);
      HungMeans(live, listenfd, served, got, rset);
      out := Done;
    }
  }
}
