/** 012_network_IO/03epoll/server.c: the service loop's bookkeeping. The kernel's answers are
    parameters: any batch of events on watched descriptors, each at most once, any unused
    descriptor from accept, any read result that is not an error. */
module EpollServer {
  import opened ClientTable
  import opened IntSets

  /** An event: its descriptor, whether input is flagged, and how much a read would return. */
  datatype Ready = Ready(fd: int, pollin: bool, n: nat)

  /** The loop's two constants while a batch runs: the listener, and what accept would return. */
  datatype Ports = Ports(listenfd: int, connfd: int)

  datatype Result = Exit | Going(t: Table)

  predicate Closes(p: Ports, e: Ready) {
    e.fd != p.listenfd && e.pollin && e.n == 0
  }

  /** Lines 69-127 for one event. */
  function Handle(t: Table, p: Ports, e: Ready): Result
    requires -1 <= t.maxi
  {
    if e.fd == p.listenfd then
      (if Full(t.client) then Exit else Going(Insert(t, p.connfd)))
    else if Closes(p, e) then Going(t.(client := Clear(t.client, e.fd, t.maxi + 1)))
    else Going(t)
  }

  function Batch(t: Table, p: Ports, batch: seq<Ready>): (r: Result)
    requires -1 <= t.maxi
    ensures r.Going? ==> -1 <= r.t.maxi
  {
    if batch == [] then Going(t)
    else
      match Batch(t, p, batch[..|batch| - 1])
      case Exit => Exit
      case Going(u) => Handle(u, p, batch[|batch| - 1])
  }

  // ---------- What a batch amounts to ----------

  function ClosedIn(p: Ports, batch: seq<Ready>): set<int> {
    set e | e in batch && Closes(p, e) :: e.fd
  }

  ghost predicate Accepts(p: Ports, batch: seq<Ready>) {
    exists e :: e in batch && e.fd == p.listenfd
  }

  function History(p: Ports, batch: seq<Ready>): seq<Event> {
    if batch == [] then []
    else
      var e := batch[|batch| - 1];
      History(p, batch[..|batch| - 1]) + Record(p, e)
  }

  function Record(p: Ports, e: Ready): seq<Event> {
    if e.fd == p.listenfd then [Opened(p.connfd)] else if Closes(p, e) then [Closed(e.fd)] else []
  }

  ghost predicate OncePerFd(batch: seq<Ready>) {
    forall i, j :: 0 <= i < j < |batch| ==> batch[i].fd != batch[j].fd
  }

  /** What the kernel may answer: each watched descriptor at most once, and from accept a
      descriptor that is not open at that moment, though it may have been closed by an earlier
      event of the same batch. */
  ghost predicate Answer(live: set<int>, p: Ports, batch: seq<Ready>) {
    && OncePerFd(batch)
    && (forall e :: e in batch ==> e.fd == p.listenfd || e.fd in live)
    && p.listenfd >= 0 && p.connfd >= 0 && p.connfd != p.listenfd && p.listenfd !in live
    && (forall k :: 0 <= k < |batch| && batch[k].fd == p.listenfd ==> p.connfd !in live - ClosedIn(p, batch[..k]))
  }

  /** The batch's net effect on a set of clients. */
  ghost function After(live: set<int>, p: Ports, batch: seq<Ready>): set<int> {
    if Accepts(p, batch) then live - ClosedIn(p, batch) + {p.connfd} else live - ClosedIn(p, batch)
  }

  lemma ClosedNext(p: Ports, batch: seq<Ready>)
    requires batch != []
    ensures var k := |batch| - 1;
            && (Closes(p, batch[k]) ==> ClosedIn(p, batch) == ClosedIn(p, batch[..k]) + {batch[k].fd})
            && (!Closes(p, batch[k]) ==> ClosedIn(p, batch) == ClosedIn(p, batch[..k]))
            && (Accepts(p, batch) <==> Accepts(p, batch[..k]) || batch[k].fd == p.listenfd)
  {
    var k := |batch| - 1;
    assert batch == batch[..k] + [batch[k]];
    assert forall e :: e in batch <==> e in batch[..k] || e == batch[k];
    assert batch[k] in batch;
  }

  lemma AnswerPrefix(live: set<int>, p: Ports, batch: seq<Ready>, m: nat)
    requires Answer(live, p, batch) && m <= |batch|
    ensures Answer(live, p, batch[..m])
  {
    forall k | 0 <= k < m && batch[..m][k].fd == p.listenfd
      ensures p.connfd !in live - ClosedIn(p, batch[..m][..k])
    {
      assert batch[..m][..k] == batch[..k];
    }
  }

  /** The last event, met after the ones before it. */
  lemma LastEvent(live: set<int>, p: Ports, batch: seq<Ready>)
    requires batch != [] && Answer(live, p, batch)
    ensures var k := |batch| - 1;
            var now := After(live, p, batch[..k]);
            && (batch[k].fd == p.listenfd ==> !Accepts(p, batch[..k]) && p.connfd !in now)
            && (Closes(p, batch[k]) ==> batch[k].fd in now)
  {
    var k := |batch| - 1;
    var e := batch[k];
    assert e in batch;
    forall d | d in batch[..k]
      ensures d.fd != e.fd
    {
      var j :| 0 <= j < k && batch[j] == d;
    }
  }

  lemma AfterNext(live: set<int>, p: Ports, batch: seq<Ready>)
    requires batch != [] && Answer(live, p, batch)
    ensures var k := |batch| - 1;
            var now := After(live, p, batch[..k]);
            && (batch[k].fd == p.listenfd ==> After(live, p, batch) == now + {p.connfd})
            && (Closes(p, batch[k]) ==> After(live, p, batch) == now - {batch[k].fd})
            && (batch[k].fd != p.listenfd && !Closes(p, batch[k]) ==> After(live, p, batch) == now)
  {
    hide ClosedIn, Accepts, OncePerFd;
    ClosedNext(p, batch);
    LastEvent(live, p, batch);
    if Closes(p, batch[|batch| - 1]) {
      CloserIsNotNew(live, p, batch);
    }
  }

  lemma CloserIsNotNew(live: set<int>, p: Ports, batch: seq<Ready>)
    requires batch != [] && Answer(live, p, batch) && Closes(p, batch[|batch| - 1])
    ensures Accepts(p, batch[..|batch| - 1]) ==> batch[|batch| - 1].fd != p.connfd
  {
    var k := |batch| - 1;
    var e := batch[k];
    assert e in batch;
    if Accepts(p, batch[..k]) {
      var d :| d in batch[..k] && d.fd == p.listenfd;
      var j :| 0 <= j < k && batch[j] == d;
      assert e.fd !in ClosedIn(p, batch[..j]) by {
        assert forall c :: c in batch[..j] ==> c.fd != e.fd;
      }
    }
  }

  /** What holds whenever the server calls epoll_wait. */
  ghost predicate Consistent(listenfd: int, t: Table, interest: set<int>, log: seq<Event>) {
    && Agrees(t, log)
    && listenfd >= 0 && listenfd !in Live(t.client)
    && interest == {listenfd} + Live(t.client)
  }

  /** One event on a consistent server. */
  lemma AcceptKeeps(t: Table, interest: set<int>, log: seq<Event>, p: Ports)
    requires Consistent(p.listenfd, t, interest, log) && !Full(t.client)
    requires p.connfd >= 0 && p.connfd != p.listenfd && p.connfd !in Live(t.client)
    ensures Consistent(p.listenfd, Insert(t, p.connfd), interest + {p.connfd}, log + [Opened(p.connfd)])
    ensures Live(Insert(t, p.connfd).client) == Live(t.client) + {p.connfd}
  {
    InsertAgrees(t, log, p.connfd);
    hide Agrees, Live, Insert, Full;
  }

  lemma CloseKeeps(listenfd: int, t: Table, interest: set<int>, log: seq<Event>, fd: int)
    requires Consistent(listenfd, t, interest, log) && fd in Live(t.client)
    ensures Consistent(listenfd, t.(client := Clear(t.client, fd, t.maxi + 1)), interest - {fd}, log + [Closed(fd)])
    ensures Live(Clear(t.client, fd, t.maxi + 1)) == Live(t.client) - {fd}
  {
    hide Agrees, Live, Clear;
    AgreesMark(t, log);
    ClearAgrees(t, log, fd);
    WatchedWithout(listenfd, Live(t.client), interest, fd);
  }

  lemma {:induction false} BatchRun(t: Table, log: seq<Event>, p: Ports, batch: seq<Ready>)
    requires Agrees(t, log) && Answer(Live(t.client), p, batch) && Batch(t, p, batch).Going?
    ensures Agrees(Batch(t, p, batch).t, log + History(p, batch))
    ensures Live(Batch(t, p, batch).t.client) == After(Live(t.client), p, batch)
  {
    hide Agrees, Live, Answer, Insert, Full, Clear, ClosedIn, Accepts;
    AgreesMark(t, log);
    if batch == [] {
      NoEvents(Live(t.client), p);
      assert log + [] == log;
    } else {
      var k := |batch| - 1;
      var e := batch[k];
      var live := Live(t.client);
      AnswerPrefix(live, p, batch, k);
      BatchRun(t, log, p, batch[..k]);
      LastEvent(live, p, batch);
      AfterNext(live, p, batch);
      var u := Batch(t, p, batch[..k]).t;
      var log' := log + History(p, batch[..k]);
      if e.fd == p.listenfd {
        AnswerConn(live, p, batch);
        InsertAgrees(u, log', p.connfd);
        assert log + History(p, batch) == log' + [Opened(p.connfd)];
      } else if Closes(p, e) {
        ClearAgrees(u, log', e.fd);
        assert log + History(p, batch) == log' + [Closed(e.fd)];
      } else {
        assert log + History(p, batch) == log';
      }
    }
  }

  /** The net effect, event by event: an end of file, which is input flagged and nothing to read,
      takes the client away, and nothing else does; the listener's event adds one. */
  lemma AfterMeans(live: set<int>, p: Ports, batch: seq<Ready>)
    requires Answer(live, p, batch)
    ensures forall fd :: fd in live && (forall e :: e in batch && e.fd == fd ==> !e.pollin || e.n != 0) ==>
              fd in After(live, p, batch)
    ensures forall e :: e in batch && e.fd in live && e.fd != p.connfd && e.pollin && e.n == 0 ==>
              e.fd !in After(live, p, batch)
    ensures forall e :: e in batch && e.fd == p.listenfd ==> p.connfd in After(live, p, batch)
    ensures forall fd :: fd in After(live, p, batch) && fd !in live ==> fd == p.connfd && Accepts(p, batch)
  {
  }

  /** A batch that is not cut short changes the clients by its net effect: those that sent an end
      of file are gone, the others stay, the accepted one is there; and the table agrees with the
      history of connections. */
  lemma BatchEffect(t: Table, log: seq<Event>, p: Ports, batch: seq<Ready>)
    requires Agrees(t, log) && Answer(Live(t.client), p, batch) && Batch(t, p, batch).Going?
    ensures Agrees(Batch(t, p, batch).t, log + History(p, batch))
    ensures Live(Batch(t, p, batch).t.client) == After(Live(t.client), p, batch)
    ensures forall fd :: fd in Live(t.client) &&
                         (forall e :: e in batch && e.fd == fd ==> !e.pollin || e.n != 0) ==>
              fd in Live(Batch(t, p, batch).t.client)
    ensures forall e :: e in batch && e.fd in Live(t.client) && e.fd != p.connfd && e.pollin && e.n == 0 ==>
              e.fd !in Live(Batch(t, p, batch).t.client)
    ensures forall e :: e in batch && e.fd == p.listenfd ==> p.connfd in Live(Batch(t, p, batch).t.client)
  {
    hide Agrees, Live, Answer, Batch, History, After;
    BatchRun(t, log, p, batch);
    AfterMeans(Live(t.client), p, batch);
  }

  lemma NoEvents(live: set<int>, p: Ports)
    ensures After(live, p, []) == live
  {
  }

  lemma AnswerConn(live: set<int>, p: Ports, batch: seq<Ready>)
    requires Answer(live, p, batch)
    ensures p.connfd >= 0 && p.listenfd >= 0 && p.connfd != p.listenfd
  {
  }

  // ---------- Does the order inside a batch matter? ----------

  /** The same events in another order. */
  ghost predicate Reordering(a: seq<Ready>, b: seq<Ready>) {
    OncePerFd(a) && OncePerFd(b) && forall e :: e in a <==> e in b
  }

  /** What a client can tell of a batch: whether the server exited, and who is connected. */
  datatype Outcome = Exited | Connected(live: set<int>)

  function Seen(t: Table, p: Ports, batch: seq<Ready>): Outcome
    requires -1 <= t.maxi
  {
    match Batch(t, p, batch)
    case Exit => Exited
    case Going(u) => Connected(Live(u.client))
  }

  /** The batch finds every entry taken when it comes to the listener: the table was full and no
      client closed before. */
  ghost predicate Overflows(t: Table, p: Ports, batch: seq<Ready>) {
    Full(t.client) && exists k :: 0 <= k < |batch| && batch[k].fd == p.listenfd && ClosedIn(p, batch[..k]) == {}
  }

  lemma RoomAfter(t: Table, log: seq<Event>, p: Ports, batch: seq<Ready>)
    requires Agrees(t, log) && Answer(Live(t.client), p, batch) && Batch(t, p, batch).Going? && !Accepts(p, batch)
    ensures Full(Batch(t, p, batch).t.client) <==> Full(t.client) && ClosedIn(p, batch) == {}
  {
    hide Agrees, Full, Batch, Handle;
    BatchRun(t, log, p, batch);
    AgreesMark(t, log);
    var u := Batch(t, p, batch).t;
    BatchWidth(t, p, batch);
    AgreesMark(t, log);
    AgreesMark(u, log + History(p, batch));
    FullSize(t.client);
    FullSize(u.client);
    var live, closed := Live(t.client), ClosedIn(p, batch);
    assert closed <= live;
    assert live == (live - closed) + closed;
  }

  lemma {:induction false} BatchWidth(t: Table, p: Ports, batch: seq<Ready>)
    requires -1 <= t.maxi && Batch(t, p, batch).Going?
    ensures |Batch(t, p, batch).t.client| == |t.client|
  {
    if batch != [] {
      BatchWidth(t, p, batch[..|batch| - 1]);
    }
  }

  /** The "too many clients" exit is taken exactly on overflow. */
  lemma {:induction false} ExitIff(t: Table, log: seq<Event>, p: Ports, batch: seq<Ready>)
    requires Agrees(t, log) && Answer(Live(t.client), p, batch)
    ensures Batch(t, p, batch).Exit? <==> Overflows(t, p, batch)
  {
    hide Agrees, Live, Answer, Insert, Full, Clear, ClosedIn, OncePerFd;
    AgreesMark(t, log);
    if batch != [] {
      var k := |batch| - 1;
      var e := batch[k];
      AnswerPrefix(Live(t.client), p, batch, k);
      ExitIff(t, log, p, batch[..k]);
      OverflowsNext(t, p, batch);
      if Batch(t, p, batch[..k]).Going? && e.fd == p.listenfd {
        LastEvent(Live(t.client), p, batch);
        RoomAfter(t, log, p, batch[..k]);
      }
    }
  }

  lemma OverflowsNext(t: Table, p: Ports, batch: seq<Ready>)
    requires batch != []
    ensures var k := |batch| - 1;
            Overflows(t, p, batch) <==>
            Overflows(t, p, batch[..k]) ||
            (Full(t.client) && batch[k].fd == p.listenfd && ClosedIn(p, batch[..k]) == {})
  {
    hide ClosedIn, Full;
    var k := |batch| - 1;
    if Overflows(t, p, batch[..k]) {
      var j :| 0 <= j < k && batch[..k][j].fd == p.listenfd && ClosedIn(p, batch[..k][..j]) == {};
      assert batch[..k][..j] == batch[..j];
      assert batch[j].fd == p.listenfd && ClosedIn(p, batch[..j]) == {};
    }
    if Overflows(t, p, batch) {
      var j :| 0 <= j < |batch| && batch[j].fd == p.listenfd && ClosedIn(p, batch[..j]) == {};
      if j < k {
        assert batch[..k][..j] == batch[..j];
        assert batch[..k][j].fd == p.listenfd;
      }
    }
  }

  /** A kernel answer whose accepted descriptor was not open before the batch. */
  ghost predicate FreshAnswer(live: set<int>, p: Ports, batch: seq<Ready>) {
    && OncePerFd(batch)
    && (forall e :: e in batch ==> e.fd == p.listenfd || e.fd in live)
    && p.listenfd >= 0 && p.connfd >= 0 && p.connfd != p.listenfd && p.listenfd !in live && p.connfd !in live
  }

  /** Then it stays a possible answer in any order, with the same net effect. */
  lemma FreshReordered(live: set<int>, p: Ports, a: seq<Ready>, b: seq<Ready>)
    requires FreshAnswer(live, p, a) && Reordering(a, b)
    ensures Answer(live, p, b) && FreshAnswer(live, p, b)
    ensures After(live, p, b) == After(live, p, a) && ClosedIn(p, b) == ClosedIn(p, a)
    ensures Accepts(p, b) <==> Accepts(p, a)
  {
    SameEvents(live, p, a, b);
  }

  /** In some other order that the kernel may answer as well, the outcome is another. */
  ghost predicate OrderMatters(t: Table, p: Ports, batch: seq<Ready>)
    requires -1 <= t.maxi
  {
    exists b :: Reordering(batch, b) && Answer(Live(t.client), p, b) && Seen(t, p, b) != Seen(t, p, batch)
  }

  lemma SeenIs(t: Table, log: seq<Event>, p: Ports, batch: seq<Ready>)
    requires Agrees(t, log) && Answer(Live(t.client), p, batch)
    ensures Seen(t, p, batch) == if Overflows(t, p, batch) then Exited else Connected(After(Live(t.client), p, batch))
  {
    hide Agrees, Live, Answer, Overflows;
    AgreesMark(t, log);
    ExitIff(t, log, p, batch);
    if Batch(t, p, batch).Going? {
      BatchRun(t, log, p, batch);
    }
  }

  lemma MoveToEnd(batch: seq<Ready>, k: nat) returns (b: seq<Ready>)
    requires OncePerFd(batch) && k < |batch|
    ensures Reordering(batch, b) && b != [] && b[|b| - 1] == batch[k]
    ensures forall e :: e in b[..|b| - 1] <==> e in batch && e.fd != batch[k].fd
  {
    var before, after := batch[..k], batch[k + 1..];
    b := before + after + [batch[k]];
    assert b[..|b| - 1] == before + after;
    assert batch == before + [batch[k]] + after;
    forall i, j | 0 <= i < j < |b|
      ensures b[i].fd != b[j].fd
    {
      assert b[i] == if i < k then batch[i] else batch[i + 1];
      assert b[j] == if j < k then batch[j] else if j < |b| - 1 then batch[j + 1] else batch[k];
    }
  }

  lemma MoveToFront(batch: seq<Ready>, k: nat) returns (b: seq<Ready>)
    requires OncePerFd(batch) && k < |batch|
    ensures Reordering(batch, b) && b != [] && b[0] == batch[k]
  {
    var before, after := batch[..k], batch[k + 1..];
    b := [batch[k]] + before + after;
    assert batch == before + [batch[k]] + after;
    forall i, j | 0 <= i < j < |b|
      ensures b[i].fd != b[j].fd
    {
      assert b[j] == if j <= k then batch[j - 1] else batch[j];
      assert b[i] == if i == 0 then batch[k] else if i <= k then batch[i - 1] else batch[i];
    }
  }

  /** With the listener first, a full table overflows; with it last, a closing client saves it. */
  lemma BothWays(t: Table, log: seq<Event>, p: Ports, batch: seq<Ready>)
    requires Agrees(t, log) && FreshAnswer(Live(t.client), p, batch)
    requires Full(t.client) && Accepts(p, batch) && ClosedIn(p, batch) != {}
    ensures OrderMatters(t, p, batch)
  {
    var live := Live(t.client);
    var d :| d in batch && d.fd == p.listenfd;
    var k :| 0 <= k < |batch| && batch[k] == d;
    var first := MoveToFront(batch, k);
    var last := MoveToEnd(batch, k);
    FreshReordered(live, p, batch, first);
    FreshReordered(live, p, batch, last);
    hide Agrees, Live, Full, Batch, Seen, FreshAnswer, After;
    AgreesMark(t, log);
    SeenIs(t, log, p, first);
    SeenIs(t, log, p, last);
    ListenerFirst(t, p, first);
    ListenerLast(t, p, last);
    assert Seen(t, p, first) != Seen(t, p, last);
  }

  lemma ListenerFirst(t: Table, p: Ports, batch: seq<Ready>)
    requires Full(t.client) && batch != [] && batch[0].fd == p.listenfd
    ensures Overflows(t, p, batch)
  {
    assert batch[..0] == [];
    assert ClosedIn(p, batch[..0]) == {};
  }

  lemma ListenerLast(t: Table, p: Ports, batch: seq<Ready>)
    requires OncePerFd(batch) && batch != [] && batch[|batch| - 1].fd == p.listenfd && ClosedIn(p, batch) != {}
    ensures !Overflows(t, p, batch)
  {
    ClosedNext(p, batch);
    hide ClosedIn;
    var n := |batch| - 1;
    forall k | 0 <= k < |batch| && batch[k].fd == p.listenfd
      ensures ClosedIn(p, batch[..k]) != {}
    {
      assert k == n;
    }
  }

  /** With accept's descriptor held fixed, the outcome depends on the order of events exactly when
      the table is full, a connection is waiting, some client in the batch has closed, and that
      descriptor is not the one of a client that has (accept could not return it before). */
  lemma OrderMattersIff(t: Table, log: seq<Event>, p: Ports, batch: seq<Ready>)
    requires Agrees(t, log) && Answer(Live(t.client), p, batch)
    ensures OrderMatters(t, p, batch) <==>
            Full(t.client) && Accepts(p, batch) && ClosedIn(p, batch) != {} && p.connfd !in Live(t.client)
  {
    if Full(t.client) && Accepts(p, batch) && ClosedIn(p, batch) != {} && p.connfd !in Live(t.client) {
      BothWays(t, log, p, batch);
    } else {
      forall b | Reordering(batch, b) && Answer(Live(t.client), p, b)
        ensures Seen(t, p, b) == Seen(t, p, batch)
      {
        SameEitherWay(t, log, p, batch, b);
      }
    }
  }

  lemma SameEitherWay(t: Table, log: seq<Event>, p: Ports, a: seq<Ready>, b: seq<Ready>)
    requires Agrees(t, log) && Answer(Live(t.client), p, a) && Answer(Live(t.client), p, b) && Reordering(a, b)
    requires !(Full(t.client) && Accepts(p, a) && ClosedIn(p, a) != {} && p.connfd !in Live(t.client))
    ensures Seen(t, p, a) == Seen(t, p, b)
  {
    hide Agrees, Live, Full, Seen, Answer, Batch;
    AgreesMark(t, log);
    SameEvents(Live(t.client), p, a, b);
    hide Reordering;
    SeenIs(t, log, p, a);
    SeenIs(t, log, p, b);
    if p.connfd in Live(t.client) {
      ReuseHasRoom(t, p, a);
      ReuseHasRoom(t, p, b);
    } else {
      NoCloserOverflow(t, p, a);
      NoCloserOverflow(t, p, b);
    }
  }

  lemma SameEvents(live: set<int>, p: Ports, a: seq<Ready>, b: seq<Ready>)
    requires Reordering(a, b)
    ensures After(live, p, b) == After(live, p, a) && ClosedIn(p, b) == ClosedIn(p, a)
    ensures Accepts(p, b) <==> Accepts(p, a)
  {
  }

  /** A descriptor is reused only after its client was closed. */
  lemma ReuseHasRoom(t: Table, p: Ports, batch: seq<Ready>)
    requires Answer(Live(t.client), p, batch) && p.connfd in Live(t.client)
    ensures !Overflows(t, p, batch)
  {
  }

  lemma NoCloserOverflow(t: Table, p: Ports, batch: seq<Ready>)
    requires !(Full(t.client) && Accepts(p, batch) && ClosedIn(p, batch) != {})
    ensures Overflows(t, p, batch) <==> Full(t.client) && Accepts(p, batch)
  {
    hide Full;
    if Full(t.client) && Accepts(p, batch) {
      var d :| d in batch && d.fd == p.listenfd;
      var k :| 0 <= k < |batch| && batch[k] == d;
      assert ClosedIn(p, batch[..k]) <= ClosedIn(p, batch);
    }
    if Overflows(t, p, batch) {
      var k :| 0 <= k < |batch| && batch[k].fd == p.listenfd && ClosedIn(p, batch[..k]) == {};
      assert batch[k] in batch;
    }
  }

  // ---------- Does the order decide whether the server exits? ----------

  /** In some other order, with whatever descriptor accept then returns, the server exits where it
      would not have, or the other way round. */
  ghost predicate ExitDepends(t: Table, p: Ports, batch: seq<Ready>)
    requires -1 <= t.maxi
  {
    exists q, b :: OtherExit(t, p, batch, q, b)
  }

  ghost predicate OtherExit(t: Table, p: Ports, batch: seq<Ready>, q: Ports, b: seq<Ready>)
    requires -1 <= t.maxi
  {
    && q.listenfd == p.listenfd && Reordering(batch, b) && Answer(Live(t.client), q, b)
    && (Batch(t, q, b).Exit? <==> !Batch(t, p, batch).Exit?)
  }

  /** A descriptor not in use. */
  lemma {:induction false} UnusedFd(used: set<int>) returns (fd: int)
    ensures fd >= 0 && forall x :: x in used ==> x < fd
  {
    if x :| x in used {
      var rest := used - {x};
      var above := UnusedFd(rest);
      fd := if above <= x then x + 1 else above;
      forall y | y in used
        ensures y < fd
      {
        assert y == x || y in rest;
      }
    } else {
      fd := 0;
    }
  }

  /** With an unused descriptor the same events are a possible answer in any order. */
  lemma AnyOrder(live: set<int>, p: Ports, batch: seq<Ready>, b: seq<Ready>) returns (q: Ports)
    requires Answer(live, p, batch) && Reordering(batch, b)
    ensures q.listenfd == p.listenfd && Answer(live, q, b)
  {
    var fd := UnusedFd(live + {p.listenfd});
    assert fd !in live + {p.listenfd};
    q := Ports(p.listenfd, fd);
    FreshReordered(live, q, batch, b);
  }

  lemma ClosedByListener(p: Ports, q: Ports, batch: seq<Ready>)
    requires q.listenfd == p.listenfd
    ensures ClosedIn(q, batch) == ClosedIn(p, batch) && (Accepts(q, batch) <==> Accepts(p, batch))
  {
    assert forall e :: e in batch ==> (Closes(q, e) <==> Closes(p, e));
  }

  /** Whether the server exits depends on the order in which the kernel reports the batch's events
      exactly when the table is full, a connection is waiting and some client has closed. */
  lemma ExitDependsIff(t: Table, log: seq<Event>, p: Ports, batch: seq<Ready>)
    requires Agrees(t, log) && Answer(Live(t.client), p, batch)
    ensures ExitDepends(t, p, batch) <==> Full(t.client) && Accepts(p, batch) && ClosedIn(p, batch) != {}
  {
    if Full(t.client) && Accepts(p, batch) && ClosedIn(p, batch) != {} {
      ExitsEitherWay(t, log, p, batch);
    } else {
      forall q, b
        ensures !OtherExit(t, p, batch, q, b)
      {
        if q.listenfd == p.listenfd && Reordering(batch, b) && Answer(Live(t.client), q, b) {
          SameExit(t, log, p, batch, q, b);
        }
      }
    }
  }

  lemma ExitsEitherWay(t: Table, log: seq<Event>, p: Ports, batch: seq<Ready>)
    requires Agrees(t, log) && Answer(Live(t.client), p, batch)
    requires Full(t.client) && Accepts(p, batch) && ClosedIn(p, batch) != {}
    ensures ExitDepends(t, p, batch)
  {
    var live := Live(t.client);
    var d :| d in batch && d.fd == p.listenfd;
    var k :| 0 <= k < |batch| && batch[k] == d;
    var first := MoveToFront(batch, k);
    var last := MoveToEnd(batch, k);
    var q := AnyOrder(live, p, batch, first);
    var q' := AnyOrder(live, p, batch, last);
    SameEvents(live, p, batch, last);
    ClosedByListener(p, q', last);
    hide Agrees, Live, Full, Batch, Answer, Reordering;
    ListenerFirst(t, q, first);
    ListenerLast(t, q', last);
    ExitIff(t, log, q, first);
    ExitIff(t, log, q', last);
    assert OtherExit(t, p, batch, q, first) || OtherExit(t, p, batch, q', last);
  }

  lemma SameExit(t: Table, log: seq<Event>, p: Ports, a: seq<Ready>, q: Ports, b: seq<Ready>)
    requires Agrees(t, log) && Answer(Live(t.client), p, a)
    requires q.listenfd == p.listenfd && Reordering(a, b) && Answer(Live(t.client), q, b)
    requires !(Full(t.client) && Accepts(p, a) && ClosedIn(p, a) != {})
    ensures Batch(t, q, b).Exit? <==> Batch(t, p, a).Exit?
  {
    hide Agrees, Live, Full, Answer, Batch;
    AgreesMark(t, log);
    SameEvents(Live(t.client), p, a, b);
    ClosedByListener(p, q, b);
    hide Reordering, ClosedIn, Accepts;
    ExitIff(t, log, p, a);
    ExitIff(t, log, q, b);
    NoCloserOverflow(t, p, a);
    NoCloserOverflow(t, q, b);
  }

  // ---------- The server, its table updated in place ----------

  datatype RoundOutcome = Done | TooManyClients | PollFailed

  lemma EventReady(live: set<int>, p: Ports, batch: seq<Ready>, i: nat)
    requires Answer(live, p, batch) && i < |batch|
    ensures Answer(live, p, batch[..i]) && Answer(live, p, batch[..i + 1])
    ensures batch[i].fd == p.listenfd ==>
              p.connfd >= 0 && p.connfd != p.listenfd && p.connfd !in After(live, p, batch[..i])
    ensures Closes(p, batch[i]) ==> batch[i].fd in After(live, p, batch[..i])
  {
    hide After, ClosedIn, Accepts;
    AnswerPrefix(live, p, batch, i);
    AnswerPrefix(live, p, batch, i + 1);
    LastEvent(live, p, batch[..i + 1]);
    assert batch[..i + 1][..i] == batch[..i];
  }

  lemma BatchNext(t: Table, p: Ports, batch: seq<Ready>, i: nat)
    requires -1 <= t.maxi && i < |batch| && Batch(t, p, batch[..i]).Going?
    ensures Batch(t, p, batch[..i + 1]) == Handle(Batch(t, p, batch[..i]).t, p, batch[i])
  {
    assert batch[..i + 1][..i] == batch[..i];
  }

  lemma {:induction false} ExitStays(t: Table, p: Ports, batch: seq<Ready>, i: nat)
    requires -1 <= t.maxi && i <= |batch| && Batch(t, p, batch[..i]).Exit?
    ensures Batch(t, p, batch).Exit?
  {
    if i < |batch| {
      assert batch[..|batch| - 1][..i] == batch[..i];
      ExitStays(t, p, batch[..|batch| - 1], i);
    } else {
      assert batch[..i] == batch;
    }
  }

  class Server {
    const listenfd: int
    const client: array<int>
    var maxi: int
    var interest: set<int>
    ghost var log: seq<Event>

    ghost function Entries(): (r: seq<int>)
      reads client
      ensures |r| == client.Length
    {
      client[..]
    }

    ghost predicate Valid()
      reads this, client
    {
      Consistent(listenfd, Table(Entries(), maxi), interest, log)
    }

    constructor (listenfd: int, capacity: nat)
      requires listenfd >= 0
      ensures Valid() && fresh(client) && client.Length == capacity && this.listenfd == listenfd
      ensures log == [] && interest == {listenfd}
    {
      this.listenfd := listenfd;
      client := new int[capacity](_ => -1);
      maxi, interest, log := -1, {listenfd}, [];
      new;
      assert Table(Entries(), maxi) == Empty(capacity);
      EmptyAgrees(capacity);
    }

    method Write(i: nat, fd: int)
      requires i < client.Length
      modifies client
      ensures Entries() == old(Entries())[i := fd]
    {
      client[i] := fd;
    }

    /** Lines 76-91: register a new connection, unless every entry is taken. */
    method Accept(connfd: int) returns (ok: bool)
      requires Valid() && connfd >= 0 && connfd != listenfd && connfd !in Live(Entries())
      modifies this, client
      ensures Valid()
      ensures ok <==> !Full(old(Entries()))
      ensures ok ==> Table(Entries(), maxi) == Insert(old(Table(Entries(), maxi)), connfd)
      ensures ok ==> log == old(log) + [Opened(connfd)] && Live(Entries()) == old(Live(Entries())) + {connfd}
    {
      hide Consistent, Live, FirstFree;
      var j := FindFree(client);
      if j == client.Length {
        return false;
      }
      AcceptKeeps(Table(Entries(), maxi), interest, log, Ports(listenfd, connfd));
      Write(j, connfd);
      if j > maxi {
        maxi := j;
      }
      interest := interest + {connfd};
      log := log + [Opened(connfd)];
      ok := true;
    }

    /** Lines 102-108: the loop over the entries up to maxi. */
    method ClearEntries(sockfd: int)
      requires -1 <= maxi < client.Length
      modifies client
      ensures Entries() == Clear(old(Entries()), sockfd, maxi + 1)
    {
      var j := 0;
      while j <= maxi
        invariant 0 <= j <= maxi + 1
        invariant Entries() == Clear(old(Entries()), sockfd, j)
      {
        if client[j] == sockfd {
          client[j] := -1;
        }
        j := j + 1;
      }
    }

    /** Lines 97-108: a client closed. */
    method Close(sockfd: int)
      requires Valid() && sockfd in Live(Entries())
      modifies this, client
      ensures Valid() && maxi == old(maxi) && log == old(log) + [Closed(sockfd)]
      ensures Entries() == Clear(old(Entries()), sockfd, maxi + 1)
      ensures Live(Entries()) == old(Live(Entries())) - {sockfd}
    {
      hide Live, Clear, Entries, Agrees;
      CloseKeeps(listenfd, Table(Entries(), maxi), interest, log, sockfd);
      AgreesMark(Table(Entries(), maxi), log);
      interest := interest - {sockfd};
      log := log + [Closed(sockfd)];
      ClearEntries(sockfd);
    }

    /** One event: lines 69-127. */
    method Event(p: Ports, e: Ready) returns (ok: bool)
      requires Valid() && p.listenfd == listenfd && -1 <= maxi
      requires e.fd == listenfd ==> p.connfd >= 0 && p.connfd != listenfd && p.connfd !in Live(Entries())
      requires e.fd != listenfd && e.pollin && e.n == 0 ==> e.fd in Live(Entries())
      modifies this, client
      ensures Valid()
      ensures ok <==> Handle(old(Table(Entries(), maxi)), p, e).Going?
      ensures ok <==> e.fd != listenfd || !Full(old(Entries()))
      ensures ok ==> Handle(old(Table(Entries(), maxi)), p, e) == Going(Table(Entries(), maxi))
      ensures ok ==> log == old(log) + Record(p, e)
      ensures ok && e.fd == listenfd ==> Live(Entries()) == old(Live(Entries())) + {p.connfd}
      ensures e.fd != listenfd && e.pollin && e.n == 0 ==> Live(Entries()) == old(Live(Entries())) - {e.fd}
      ensures e.fd != listenfd && (!e.pollin || e.n != 0) ==> Entries() == old(Entries()) && log == old(log)
    {
      hide Consistent, Live, Entries, Clear, Insert, Full;
      ok := true;
      if e.fd == listenfd {
        ok := Accept(p.connfd);
      } else if e.pollin {
        if e.n == 0 {
          Close(e.fd);
        }
      }
    }

    /** One pass of the outer loop: `nready` is epoll_wait's result and `batch` what it filled in;
        a process that exits on a full table is modelled up to that point. */
    method Round(nready: int, batch: seq<Ready>, connfd: int) returns (out: RoundOutcome)
      requires Valid() && -1 <= maxi && (nready >= 0 ==> nready == |batch|)
      requires Answer(Live(Entries()), Ports(listenfd, connfd), batch)
      modifies this, client
      ensures Valid()
      ensures out == PollFailed <==> nready < 0
      ensures out == PollFailed ==> Entries() == old(Entries()) && log == old(log) && interest == old(interest)
      ensures out == TooManyClients <==>
                nready >= 0 && Overflows(old(Table(Entries(), maxi)), Ports(listenfd, connfd), batch)
      ensures out == Done ==>
                && Batch(old(Table(Entries(), maxi)), Ports(listenfd, connfd), batch) == Going(Table(Entries(), maxi))
                && interest == {listenfd} + After(old(Live(Entries())), Ports(listenfd, connfd), batch)
                && interest == {listenfd} + Live(Entries())
                && log == old(log) + History(Ports(listenfd, connfd), batch)
      ensures out == Done ==>
                forall fd :: fd in old(Live(Entries())) ==>
                  (forall e :: e in batch && e.fd == fd ==> !e.pollin || e.n != 0) ==> fd in Live(Entries())
      ensures out == Done ==>
                forall e :: e in batch && e.fd in old(Live(Entries())) && e.fd != connfd ==>
                  e.pollin && e.n == 0 ==> e.fd !in Live(Entries())
      ensures out == Done ==> forall e :: e in batch && e.fd == listenfd ==> connfd in Live(Entries())
    {
      hide Live, Entries, Agrees, Answer, After, Handle, Batch, Overflows, Consistent, History, Record;
      if nready < 0 {
        return PollFailed;
      }
      ghost var t0, log0 := Table(Entries(), maxi), log;
      var p := Ports(listenfd, connfd);
      ConsistentParts(listenfd, t0, interest, log0);
      BatchNone(t0, log0, p, batch);
      ExitIff(t0, log0, p, batch);
      var i := 0;
      while i < nready
        invariant 0 <= i <= |batch| && Valid() && -1 <= maxi
        invariant Batch(t0, p, batch[..i]) == Going(Table(Entries(), maxi))
        invariant log == log0 + History(p, batch[..i])
      {
        EventReady(Live(t0.client), p, batch, i);
        BatchEffect(t0, log0, p, batch[..i]);
        BatchNext(t0, p, batch, i);
        HistoryNext(log0, p, batch, i);
        var ok := Event(p, batch[i]);
        if !ok {
          ExitStays(t0, p, batch, i + 1);
          return TooManyClients;
        }
        ConsistentParts(listenfd, Table(Entries(), maxi), interest, log);
        i := i + 1;
      }
      assert batch[..i] == batch;
      BatchEffect(t0, log0, p, batch);
      ConsistentParts(listenfd, Table(Entries(), maxi), interest, log);
      out := Done;
    }
  }

  lemma ConsistentParts(listenfd: int, t: Table, interest: set<int>, log: seq<ClientTable.Event>)
    requires Consistent(listenfd, t, interest, log)
    ensures Agrees(t, log) && -1 <= t.maxi && interest == {listenfd} + Live(t.client)
  {
  }

  lemma BatchNone(t: Table, log: seq<ClientTable.Event>, p: Ports, batch: seq<Ready>)
    requires -1 <= t.maxi
    ensures Batch(t, p, batch[..0]) == Going(t) && log + History(p, batch[..0]) == log
  {
  }

  lemma HistoryNext(log: seq<ClientTable.Event>, p: Ports, batch: seq<Ready>, i: nat)
    requires i < |batch|
    ensures log + History(p, batch[..i + 1]) == log + History(p, batch[..i]) + Record(p, batch[i])
  {
    assert batch[..i + 1][..i] == batch[..i];
  }
}
