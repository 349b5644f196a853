/** What the server has to do, without fd tables, channels and epoll: a ledger of the
    connections accepted, closed, and waiting to write, kept from the events alone. Over every
    run of the loop the books of Lifecycle are those of the ledger. */
module ServerLedger {
  import opened Registration
  import opened Lifecycle

  datatype Ledger<!C(==)> = Ledger(accepted: map<C, int>, closed: set<C>, wants: set<C>, quit: bool)
  {
    function Open(): set<C> { accepted.Keys - closed }
  }

  predicate Hangs<C>(h: Happening<C>) { Hup in h.revents && In !in h.revents }

  predicate Readable<C>(h: Happening<C>) { h.revents * {In, Pri, Rdhup} != {} }

  /** The connections a callback sent on and blocked want to write, if they are open. */
  function Notify<C>(l: Ledger<C>, blocked: seq<C>): Ledger<C> {
    l.(wants := l.wants + (set c | c in blocked && c in l.Open()))
  }

  /** A hang-up on the acceptor ends the loop; when it is readable, one connection is accepted. */
  function RecordAcceptor<C>(l: Ledger<C>, h: Happening<C>): Ledger<C> {
    var l1 := l.(quit := l.quit || Hangs(h));
    if Readable(h) then Notify(l1.(accepted := l1.accepted[h.newConn := h.newFd]), h.blocked) else l1
  }

  /** A connection is closed by a hang-up or the end of its stream; otherwise it may receive
      a message, and have its output buffer drained. */
  function RecordConnection<C>(l: Ledger<C>, c: C, h: Happening<C>): Ledger<C> {
    if Hangs(h) || (Readable(h) && h.read == 0) then
      Notify(l.(closed := l.closed + {c}, wants := l.wants - {c}), h.blocked)
    else
      var l1 := if Readable(h) && h.read > 0 then Notify(l, h.blocked) else l;
      if Out in h.revents && h.drained then l1.(wants := l1.wants - {c}) else l1
  }

  function Record<C>(l: Ledger<C>, acceptor: C, c: C, h: Happening<C>): Ledger<C> {
    if c == acceptor then RecordAcceptor(l, h) else RecordConnection(l, c, h)
  }

  function RecordBatch<C>(l: Ledger<C>, acceptor: C, batch: seq<Ready<C>>): Ledger<C>
    decreases |batch|
  {
    if batch == [] then l
    else RecordBatch(Record(l, acceptor, batch[0].chan, batch[0].happening), acceptor, batch[1..])
  }

  function RecordTurns<C>(l: Ledger<C>, acceptor: C, turns: seq<Turn<C>>): Ledger<C>
    decreases |turns|
  {
    if turns == [] then l
    else RecordTurns(Notify(RecordBatch(l, acceptor, turns[0].batch), turns[0].sent), acceptor, turns[1..])
  }

  // ---------------------------------------------------------------- agreement

  function Events(writes: bool): set<Flag> { if writes then READ_EVENT + WRITE_EVENT else READ_EVENT }

  function Fds<C>(l: Ledger<C>): set<int> { set c | c in l.accepted && c in l.Open() :: l.accepted[c] }

  predicate ConnMatches<C>(s: Server<C>, l: Ledger<C>, c: C)
    requires c in l.accepted && c in s.reg.chans
  {
    && s.reg.chans[c].fd == l.accepted[c]
    && (Alive(s, c) <==> c !in l.closed)
    && (c !in l.closed ==> s.reg.chans[c].events == Events(c in l.wants))
  }

  /** The acceptor's fd, and the fds that are none of the server's. */
  datatype Home = Home(fd: int, others: set<int>)

  ghost predicate Matches<C>(s: Server<C>, l: Ledger<C>, home: Home) {
    && s.acceptor !in l.accepted && s.reg.chans.Keys == l.accepted.Keys + {s.acceptor}
    && s.reg.chans[s.acceptor] == Chan(home.fd, READ_EVENT, Added)
    && l.closed <= l.accepted.Keys && l.wants <= l.Open()
    && (forall c :: c in l.accepted ==> ConnMatches(s, l, c))
    && s.closes == multiset(l.closed) && s.quit == l.quit
    && s.reg.open == home.others + {home.fd} + Fds(l)
    && home.fd !in home.others && Fds(l) !! home.others
  }

  /** Wanting to write, or no longer. */
  lemma WantsRecorded<C>(s: Server<C>, l: Ledger<C>, home: Home, c: C, change: Change)
    requires Inv(s) && Matches(s, l, home) && Alive(s, c)
    requires change == EnableWriting || change == DisableWriting
    ensures Inv(s.(reg := s.reg.ChangeEvents(c, change)))
    ensures Matches(s.(reg := s.reg.ChangeEvents(c, change)),
                    l.(wants := if change == EnableWriting then l.wants + {c} else l.wants - {c}), home)
  {
    var s' := s.(reg := s.reg.ChangeEvents(c, change));
    ChangeKeepsInv(s, c, change);
    assert Settled(s, c) && c != s.acceptor;
    AddedStaysAdded(s.reg, c, change);
    ChangeRest(s.reg, c, change);
    WantsMatch(s, s', l, home, c, change == EnableWriting);
  }

  lemma WantsMatch<C>(s: Server<C>, s': Server<C>, l: Ledger<C>, home: Home, c: C, writes: bool)
    requires Matches(s, l, home) && c in s.reg.chans && c != s.acceptor && Alive(s, c)
    requires var before := s.reg.chans[c].events;
             s'.reg.chans == s.reg.chans[c := s.reg.chans[c].(
               events := if writes then before + WRITE_EVENT else before - WRITE_EVENT)]
    requires s' == s.(reg := s'.reg) && s'.reg.open == s.reg.open
    ensures Matches(s', l.(wants := if writes then l.wants + {c} else l.wants - {c}), home)
  {
    var l' := l.(wants := if writes then l.wants + {c} else l.wants - {c});
    assert ConnMatches(s, l, c);
    EventsMove(c in l.wants);
    forall j | j in l'.accepted ensures ConnMatches(s', l', j) { assert ConnMatches(s, l, j); }
    assert Fds(l') == Fds(l);
  }

  lemma EventsMove(writes: bool)
    ensures Events(writes) + WRITE_EVENT == Events(true) && Events(writes) - WRITE_EVENT == Events(false)
  {
  }

  lemma {:induction false} BlockRecorded<C>(s: Server<C>, l: Ledger<C>, home: Home, blocked: seq<C>)
    requires Inv(s) && Matches(s, l, home)
    ensures Inv(Block(s, blocked)) && Matches(Block(s, blocked), Notify(l, blocked), home)
    decreases |blocked|
  {
    if blocked == [] {
      assert Notify(l, blocked) == l;
    } else {
      var b := blocked[0];
      NotifyFirst(l, blocked);
      assert b in l.accepted ==> ConnMatches(s, l, b);
      if Alive(s, b) {
        WantsRecorded(s, l, home, b, EnableWriting);
        BlockRecorded(s.(reg := s.reg.ChangeEvents(b, EnableWriting)), l.(wants := l.wants + {b}), home, blocked[1..]);
      } else {
        BlockRecorded(s, l, home, blocked[1..]);
      }
    }
  }

  lemma NotifyFirst<C>(l: Ledger<C>, blocked: seq<C>)
    requires blocked != []
    ensures Notify(l, blocked) == if blocked[0] in l.Open()
                                  then Notify(l.(wants := l.wants + {blocked[0]}), blocked[1..])
                                  else Notify(l, blocked[1..])
  {
    assert blocked == [blocked[0]] + blocked[1..];
    var l' := l.(wants := l.wants + {blocked[0]});
    assert l'.Open() == l.Open();
    if blocked[0] in l.Open() {
      assert Notify(l, blocked).wants == Notify(l', blocked[1..]).wants;
    } else {
      assert Notify(l, blocked).wants == Notify(l, blocked[1..]).wants;
    }
  }

  lemma CloseRecorded<C>(s: Server<C>, l: Ledger<C>, home: Home, c: C)
    requires Inv(s) && Matches(s, l, home) && Alive(s, c)
    ensures Inv(HandleClose(s, c))
    ensures Matches(HandleClose(s, c), l.(closed := l.closed + {c}, wants := l.wants - {c}), home)
  {
    var s', l' := HandleClose(s, c), l.(closed := l.closed + {c}, wants := l.wants - {c});
    CloseKeepsInv(s, c);
    assert Settled(s, c) && c != s.acceptor && ConnMatches(s, l, c);
    CloseEffect(s.reg, c);
    forall j | j in l'.accepted ensures ConnMatches(s', l', j) { assert ConnMatches(s, l, j); }
    FdsWithout(s, l, c);
  }

  /** Open connections have different fds. */
  lemma FdsWithout<C>(s: Server<C>, l: Ledger<C>, c: C)
    requires c in l.Open() && forall j :: j in l.accepted ==> j in s.reg.chans && ConnMatches(s, l, j)
    ensures Fds(l.(closed := l.closed + {c}, wants := l.wants - {c})) == Fds(l) - {l.accepted[c]}
  {
    var l' := l.(closed := l.closed + {c}, wants := l.wants - {c});
    forall j | j in l.accepted && j in l.Open() && j != c
      ensures l.accepted[j] != l.accepted[c] && j in l'.Open()
    {
      assert ConnMatches(s, l, j) && ConnMatches(s, l, c);
    }
  }

  /** accept(2) has succeeded, so the fd was not open. */
  lemma AcceptRecorded<C>(s: Server<C>, l: Ledger<C>, home: Home, c: C, fd: int)
    requires Inv(s) && Matches(s, l, home) && c !in s.reg.chans && fd !in s.reg.open && fd >= 0
    ensures Inv(Accept(s, c, fd)) && Accept(s, c, fd).connections == s.connections[fd := c]
    ensures Matches(Accept(s, c, fd), l.(accepted := l.accepted[c := fd]), home)
  {
    AcceptKeepsInvIff(s, c, fd);
    NewSocketAgrees(s.reg, c, fd);
    RefreshAgrees(NewSocket(s.reg.Open(fd), c, fd), c);
    AcceptMatches(s, Accept(s, c, fd), l, home, c, fd);
  }

  lemma AcceptMatches<C>(s: Server<C>, s': Server<C>, l: Ledger<C>, home: Home, c: C, fd: int)
    requires Matches(s, l, home) && c !in s.reg.chans && fd !in s.reg.open
    requires s'.reg.chans == s.reg.chans[c := Chan(fd, READ_EVENT, Added)] && s'.reg.open == s.reg.open + {fd}
    requires s'.acceptor == s.acceptor && s'.closes == s.closes && s'.quit == s.quit
    requires Alive(s', c) && forall j :: j in s.reg.chans ==> (Alive(s', j) <==> Alive(s, j))
    ensures Matches(s', l.(accepted := l.accepted[c := fd]), home)
  {
    var l' := l.(accepted := l.accepted[c := fd]);
    forall j | j in l'.accepted ensures ConnMatches(s', l', j) {
      assert j != c ==> ConnMatches(s, l, j);
    }
    FdsWith(l, c, fd);
  }

  lemma FdsWith<C>(l: Ledger<C>, c: C, fd: int)
    requires c !in l.accepted && l.closed <= l.accepted.Keys
    ensures var l' := l.(accepted := l.accepted[c := fd]);
            l'.Open() == l.Open() + {c} && Fds(l') == Fds(l) + {fd}
  {
    var l' := l.(accepted := l.accepted[c := fd]);
    assert l'.Open() == l.Open() + {c};
    assert l'.accepted[c] == fd;
    assert forall j :: j in l.Open() ==> l'.accepted[j] == l.accepted[j];
  }

  // --------------------------------------------------------------- dispatching

  /** A readable acceptor accepts exactly one connection, under the fd the kernel gave it; an
      acceptor that is not readable accepts none; a hang-up on it, and nothing else, quits. */
  lemma AcceptorAccepts<C>(s: Server<C>, h: Happening<C>)
    requires Inv(s) && Possible(s, h)
    ensures var s' := Dispatch(s, s.acceptor, h);
            && (Readable(h) ==>
                  && s'.connections == s.connections[h.newFd := h.newConn]
                  && h.newFd !in s.connections && Alive(s', h.newConn)
                  && s'.reg.open == s.reg.open + {h.newFd})
            && (!Readable(h) ==> s'.connections == s.connections && s'.reg == s.reg)
            && s'.closes == s.closes && s'.quit == (s.quit || Hangs(h))
  {
    var s1 := if Hangs(h) then s.(quit := true) else s;
    QuitKeepsInv(s);
    if Readable(h) {
      AcceptKeepsInvIff(s1, h.newConn, h.newFd);
      NewSocketAgrees(s1.reg, h.newConn, h.newFd);
      RefreshAgrees(NewSocket(s1.reg.Open(h.newFd), h.newConn, h.newFd), h.newConn);
      var s2 := Accept(s1, h.newConn, h.newFd);
      BlockKeepsInv(s2, h.blocked);
      BlockKeepsAlive(s2, h.blocked);
      BlockOnlyAsks(s2, h.blocked);
    }
  }

  lemma {:induction false} BlockOnlyAsks<C>(s: Server<C>, blocked: seq<C>)
    ensures Block(s, blocked).closes == s.closes && Block(s, blocked).quit == s.quit
    decreases |blocked|
  {
    if blocked != [] {
      if Alive(s, blocked[0]) {
        BlockOnlyAsks(s.(reg := s.reg.ChangeEvents(blocked[0], EnableWriting)), blocked[1..]);
      } else {
        BlockOnlyAsks(s, blocked[1..]);
      }
    }
  }

  lemma AcceptorRecorded<C>(s: Server<C>, l: Ledger<C>, home: Home, h: Happening<C>)
    requires Inv(s) && Matches(s, l, home) && Possible(s, h)
    ensures Matches(HandleAcceptor(s, h), RecordAcceptor(l, h), home)
  {
    var s1 := if Hangs(h) then s.(quit := true) else s;
    var l1 := l.(quit := l.quit || Hangs(h));
    QuitKeepsInv(s);
    assert Matches(s1, l1, home) by {
      forall j | j in l1.accepted ensures ConnMatches(s1, l1, j) { assert ConnMatches(s, l, j); }
      assert Fds(l1) == Fds(l);
    }
    if Readable(h) {
      AcceptRecorded(s1, l1, home, h.newConn, h.newFd);
      var l2 := l1.(accepted := l1.accepted[h.newConn := h.newFd]);
      BlockRecorded(Accept(s1, h.newConn, h.newFd), l2, home, h.blocked);
    }
  }

  lemma CloseNotified<C>(s: Server<C>, l: Ledger<C>, home: Home, c: C, h: Happening<C>)
    requires Inv(s) && Matches(s, l, home) && Alive(s, c)
    ensures Inv(CloseAndNotify(s, c, h)) && Closed(CloseAndNotify(s, c, h), c)
    ensures Matches(CloseAndNotify(s, c, h),
                    Notify(l.(closed := l.closed + {c}, wants := l.wants - {c}), h.blocked), home)
  {
    CloseRecorded(s, l, home, c);
    BlockRecorded(HandleClose(s, c), l.(closed := l.closed + {c}, wants := l.wants - {c}), home, h.blocked);
    CloseFollows(s, c, h);
    CloseStays(s, c, h);
  }

  lemma CloseStays<C>(s: Server<C>, c: C, h: Happening<C>)
    requires Inv(s) && Alive(s, c)
    ensures Closed(CloseAndNotify(s, c, h), c)
  {
    CloseKeepsInv(s, c);
    assert Settled(s, c);
    CloseEffect(s.reg, c);
    BlockKeepsInv(HandleClose(s, c), h.blocked);
  }

  lemma ConnectionRecorded<C>(s: Server<C>, l: Ledger<C>, home: Home, c: C, h: Happening<C>)
    requires Inv(s) && Matches(s, l, home) && Alive(s, c)
    ensures Matches(HandleConnection(s, c, h), RecordConnection(l, c, h), home)
  {
    OwnsItsFd(s, c);
    if Hangs(h) || (Readable(h) && h.read == 0) {
      CloseNotified(s, l, home, c, h);
      assert OnInput(s, c, h) == CloseAndNotify(s, c, h);
    } else {
      var l1 := if Readable(h) && h.read > 0 then Notify(l, h.blocked) else l;
      var s1 := OnInput(s, c, h);
      BlockRecorded(s, l, home, h.blocked);
      BlockKeepsInv(s, h.blocked);
      BlockKeepsAlive(s, h.blocked);
      assert Inv(s1) && Matches(s1, l1, home) && Alive(s1, c);
      OwnsItsFd(s1, c);
      if Out in h.revents && h.drained {
        WantsRecorded(s1, l1, home, c, DisableWriting);
      }
    }
  }

  lemma DispatchRecorded<C>(s: Server<C>, l: Ledger<C>, home: Home, c: C, h: Happening<C>)
    requires Inv(s) && Matches(s, l, home) && Possible(s, h) && (c == s.acceptor || Alive(s, c))
    ensures Matches(Dispatch(s, c, h), Record(l, s.acceptor, c, h), home)
  {
    if c == s.acceptor { AcceptorRecorded(s, l, home, h); } else { ConnectionRecorded(s, l, home, c, h); }
  }

  /** Different channels, all of them the acceptor's or of open connections. */
  ghost predicate Targets<C>(s: Server<C>, batch: seq<Ready<C>>) {
    && (forall i, j :: 0 <= i < j < |batch| ==> batch[i].chan != batch[j].chan)
    && (forall i :: 0 <= i < |batch| ==> batch[i].chan == s.acceptor || Alive(s, batch[i].chan))
  }

  lemma TargetsStay<C>(s: Server<C>, s': Server<C>, batch: seq<Ready<C>>)
    requires batch != [] && Targets(s, batch) && s'.acceptor == s.acceptor
    requires forall j :: j in s.reg.chans && j != batch[0].chan && Alive(s, j) ==> Alive(s', j)
    ensures Targets(s', batch[1..])
  {
  }

  lemma {:induction false} BatchRecorded<C>(s: Server<C>, l: Ledger<C>, home: Home, batch: seq<Ready<C>>)
    requires Inv(s) && Matches(s, l, home) && Feasible(s, batch)
    requires Targets(s, batch)
    ensures Matches(HandleBatch(s, batch), RecordBatch(l, s.acceptor, batch), home)
    decreases |batch|
  {
    if batch != [] {
      var c, h := batch[0].chan, batch[0].happening;
      DispatchKeepsInv(s, c, h);
      TargetsStay(s, Dispatch(s, c, h), batch);
      DispatchRecorded(s, l, home, c, h);
      BatchRecorded(Dispatch(s, c, h), Record(l, s.acceptor, c, h), home, batch[1..]);
    }
  }

  lemma TurnRecorded<C>(s: Server<C>, l: Ledger<C>, home: Home, turn: Turn<C>)
    requires Inv(s) && Matches(s, l, home) && Reported(s, turn.batch) && Feasible(s, turn.batch)
    ensures Inv(TakeTurn(s, turn)) && TakeTurn(s, turn).acceptor == s.acceptor
    ensures Matches(TakeTurn(s, turn), Notify(RecordBatch(l, s.acceptor, turn.batch), turn.sent), home)
  {
    forall i | 0 <= i < |turn.batch|
      ensures turn.batch[i].chan == s.acceptor || Alive(s, turn.batch[i].chan)
    {
      ReportedIsAlive(s, turn.batch[i].chan);
    }
    BatchKeepsInv(s, turn.batch);
    BatchRecorded(s, l, home, turn.batch);
    var s1 := HandleBatch(s, turn.batch);
    BlockRecorded(s1, RecordBatch(l, s.acceptor, turn.batch), home, turn.sent);
    BlockKeepsInv(s1, turn.sent);
  }

  lemma {:induction false} LoopRecorded<C>(s: Server<C>, l: Ledger<C>, home: Home, turns: seq<Turn<C>>)
    requires Inv(s) && Matches(s, l, home) && Turns(s, turns)
    ensures Inv(Loop(s, turns)) && Loop(s, turns).acceptor == s.acceptor
    ensures Matches(Loop(s, turns), RecordTurns(l, s.acceptor, turns), home)
    decreases |turns|
  {
    if turns != [] {
      TurnRecorded(s, l, home, turns[0]);
      LoopRecorded(TakeTurn(s, turns[0]),
                   Notify(RecordBatch(l, s.acceptor, turns[0].batch), turns[0].sent), home, turns[1..]);
    }
  }

  // --------------------------------------------------------------- main result

  function Nothing<C>(): Ledger<C> { Ledger(map[], {}, {}, false) }

  /** Over every run of the loop: connections_ holds exactly the connections accepted and not
      closed, each under the fd it was accepted on, and nothing of them is lost in any batch;
      the kernel watches each for reading, and for writing exactly if a Send on it has blocked
      and its buffer has not run empty since; exactly the closed ones have had their close
      callback; the open fds are the server's own and those that were open before; the loop
      quits exactly on a hang-up of the acceptor. */
  lemma BooksAreTheLedgers<C>(acceptor: C, fd: int, others: set<int>, turns: seq<Turn<C>>)
    requires fd !in others && Turns(Started(acceptor, fd, others), turns)
    ensures var s, l := Loop(Started(acceptor, fd, others), turns), RecordTurns(Nothing(), acceptor, turns);
            && (forall d, c :: d in s.connections && s.connections[d] == c
                               <==> c in l.accepted && c !in l.closed && l.accepted[c] == d)
            && (forall d :: d in s.connections ==>
                  d in s.reg.interest
                  && s.reg.interest[d] == Interest(Events(s.connections[d] in l.wants), s.connections[d]))
            && fd in s.reg.interest && s.reg.interest[fd] == Interest(READ_EVENT, acceptor)
            && s.reg.open == others + {fd} + s.connections.Keys
            && s.closes == multiset(l.closed) && s.quit == l.quit
  {
    var s0 := Started(acceptor, fd, others);
    StartedHolds(acceptor, fd, others);
    StartedMatches(acceptor, fd, others);
    LoopRecorded(s0, Nothing(), Home(fd, others), turns);
    MatchesMeans(Loop(s0, turns), RecordTurns(Nothing(), acceptor, turns), Home(fd, others));
  }

  lemma StartedMatches<C>(acceptor: C, fd: int, others: set<int>)
    requires fd !in others
    ensures var s := Started(acceptor, fd, others);
            Matches(s, Nothing(), Home(fd, others))
  {
    var r: Registry<C> := Registry(map[], map[], others, map[], 0);
    NewSocketAgrees(r, acceptor, fd);
    assert NewSocket(r.Open(fd), acceptor, fd) == Started(acceptor, fd, others).reg;
    assert Fds<C>(Nothing()) == {};
  }

  lemma MatchesMeans<C>(s: Server<C>, l: Ledger<C>, home: Home)
    requires Inv(s) && Matches(s, l, home)
    ensures forall d, c :: d in s.connections && s.connections[d] == c
                           <==> c in l.accepted && c !in l.closed && l.accepted[c] == d
    ensures forall d :: d in s.connections ==>
              d in s.reg.interest
              && s.reg.interest[d] == Interest(Events(s.connections[d] in l.wants), s.connections[d])
    ensures home.fd in s.reg.interest && s.reg.interest[home.fd] == Interest(READ_EVENT, s.acceptor)
    ensures Fds(l) == s.connections.Keys
  {
    assert Settled(s, s.acceptor) && ChanAgrees(s.reg, s.acceptor);
    forall d, c
      ensures d in s.connections && s.connections[d] == c
              <==> c in l.accepted && c !in l.closed && l.accepted[c] == d
    {
      if d in s.connections && s.connections[d] == c {
        assert c != s.acceptor && ConnMatches(s, l, c);
      }
      if c in l.accepted { assert ConnMatches(s, l, c); }
    }
    forall d | d in s.connections
      ensures d in s.reg.interest
      ensures s.reg.interest[d] == Interest(Events(s.connections[d] in l.wants), s.connections[d])
    {
      var c := s.connections[d];
      assert Settled(s, c) && ChanAgrees(s.reg, c) && ConnMatches(s, l, c);
    }
    forall c | c in l.accepted && c in l.Open() ensures l.accepted[c] in s.connections {
      assert ConnMatches(s, l, c);
    }
    forall d | d in s.connections ensures d in Fds(l) {
      var c := s.connections[d];
      assert c in l.accepted && c in l.Open() && l.accepted[c] == d;
    }
  }
}
