/** The life of connections in TcpServer: accept, events, close. One turn of EventLoop::loop
    polls a batch of channels, dispatches them one after the other and runs the pending
    functors; the kernel chooses what is ready, what reads and writes return, and the fd of
    every new connection. C stands for the address of a Socket and its Channel. */
module Lifecycle {
  import opened Registration

  /** closes: the connections whose close callback has run, once per run. */
  datatype Server<!C(==)> = Server(
    reg: Registry<C>,
    connections: map<int, C>,
    acceptor: C,
    closes: multiset<C>,
    quit: bool)

  /** What happens while one ready channel is handled: the bytes its read returns (0: end of
      stream, negative: error), whether its write emptied the output buffer, the connection
      an accept yields, and the connections on which a callback's Send would block. */
  datatype Happening<!C(==)> = Happening(
    revents: set<Flag>, read: int, drained: bool, newConn: C, newFd: int, blocked: seq<C>)

  /** The Socket constructor: a channel with its read events enabled. */
  function NewSocket<C>(r: Registry<C>, c: C, fd: int): (r': Registry<C>)
    ensures c in r'.chans && r'.chans.Keys == r.chans.Keys + {c}
  {
    r.Create(c, fd).ChangeEvents(c, EnableReading)
  }

  /** accept(2) may have failed; either way the code goes on and inserts the connection, not
      overwriting an entry. */
  function Inserted<C>(s: Server<C>, c: C, fd: int): Server<C> {
    s.(reg := NewSocket(s.reg.Accepted(fd), c, fd),
       connections := if fd in s.connections then s.connections else s.connections[fd := c])
  }

  /** Then its channel is updated once more. */
  function Accept<C>(s: Server<C>, c: C, fd: int): Server<C> { Refreshed(Inserted(s, c, fd), c) }

  function Refreshed<C>(s: Server<C>, c: C): Server<C>
    requires c in s.reg.chans
  {
    s.(reg := s.reg.UpdateChannel(c))
  }

  /** Socket::handleClose: close the fd, remove the channel, TcpServer::connectionClose. */
  function HandleClose<C>(s: Server<C>, c: C): Server<C>
    requires c in s.reg.chans
  {
    var fd := s.reg.chans[c].fd;
    s.(reg := s.reg.Close(fd).RemoveChannel(c),
       connections := s.connections - {fd},
       closes := s.closes + multiset{c})
  }

  predicate Alive<C>(s: Server<C>, c: C) {
    && c in s.reg.chans
    && s.reg.chans[c].fd in s.connections && s.connections[s.reg.chans[c].fd] == c
  }

  /** Sends of a callback that would block: the connection then wants to write. A callback
      uses a connection only while it is open. */
  function Block<C>(s: Server<C>, blocked: seq<C>): Server<C>
    decreases |blocked|
  {
    if blocked == [] then s
    else if Alive(s, blocked[0]) then
      Block(s.(reg := s.reg.ChangeEvents(blocked[0], EnableWriting)), blocked[1..])
    else Block(s, blocked[1..])
  }

  /** handleClose ends in the application's close callback, which may send as well. */
  function CloseAndNotify<C>(s: Server<C>, c: C, h: Happening<C>): Server<C>
    requires c in s.reg.chans
  {
    Block(HandleClose(s, c), h.blocked)
  }

  /** Socket::handleRead; reading a closed fd is an error. */
  function HandleRead<C>(s: Server<C>, c: C, h: Happening<C>): Server<C>
    requires c in s.reg.chans
  {
    var n := if s.reg.chans[c].fd in s.reg.open then h.read else -1;
    if n > 0 then Block(s, h.blocked) else if n == 0 then CloseAndNotify(s, c, h) else s
  }

  /** Socket::handleWrite; writing to a closed fd is an error and changes nothing. */
  function HandleWrite<C>(s: Server<C>, c: C, h: Happening<C>): Server<C>
    requires c in s.reg.chans
  {
    if h.drained && s.reg.chans[c].fd in s.reg.open
    then s.(reg := s.reg.ChangeEvents(c, DisableWriting))
    else s
  }

  function OnHangup<C>(s: Server<C>, c: C, h: Happening<C>): Server<C>
    requires c in s.reg.chans
  {
    if Hup in h.revents && In !in h.revents then CloseAndNotify(s, c, h) else s
  }

  function OnReadable<C>(s: Server<C>, c: C, h: Happening<C>): Server<C>
    requires c in s.reg.chans
  {
    if h.revents * {In, Pri, Rdhup} != {} then HandleRead(s, c, h) else s
  }

  function OnWritable<C>(s: Server<C>, c: C, h: Happening<C>): Server<C>
    requires c in s.reg.chans
  {
    if Out in h.revents then HandleWrite(s, c, h) else s
  }

  /** Channel::handleEvent on a connection; no error callback is ever set. */
  function HandleConnection<C>(s: Server<C>, c: C, h: Happening<C>): Server<C>
    requires c in s.reg.chans
  {
    OnWritable(OnInput(s, c, h), c, h)
  }

  function OnInput<C>(s: Server<C>, c: C, h: Happening<C>): (s': Server<C>)
    requires c in s.reg.chans
    ensures s'.reg.chans.Keys == s.reg.chans.Keys
  {
    SameChans(s, c, h);
    SameChans(OnHangup(s, c, h), c, h);
    OnReadable(OnHangup(s, c, h), c, h)
  }

  lemma {:induction false} BlockSameChans<C>(s: Server<C>, blocked: seq<C>)
    ensures Block(s, blocked).reg.chans.Keys == s.reg.chans.Keys
    decreases |blocked|
  {
    if blocked != [] {
      if Alive(s, blocked[0]) {
        ChangeRest(s.reg, blocked[0], EnableWriting);
        BlockSameChans(s.(reg := s.reg.ChangeEvents(blocked[0], EnableWriting)), blocked[1..]);
      } else {
        BlockSameChans(s, blocked[1..]);
      }
    }
  }

  lemma CloseSameChans<C>(s: Server<C>, c: C, h: Happening<C>)
    requires c in s.reg.chans
    ensures CloseAndNotify(s, c, h).reg.chans.Keys == s.reg.chans.Keys
  {
    assert HandleClose(s, c).reg.chans.Keys == s.reg.chans.Keys;
    BlockSameChans(HandleClose(s, c), h.blocked);
  }

  lemma SameChans<C>(s: Server<C>, c: C, h: Happening<C>)
    requires c in s.reg.chans
    ensures OnHangup(s, c, h).reg.chans.Keys == s.reg.chans.Keys
    ensures OnReadable(s, c, h).reg.chans.Keys == s.reg.chans.Keys
  {
    CloseSameChans(s, c, h);
    BlockSameChans(s, h.blocked);
  }

  /** Channel::handleEvent on the acceptor: its close callback quits the loop, its read
      callback accepts; its output buffer is empty, so writing does nothing. */
  function HandleAcceptor<C>(s: Server<C>, h: Happening<C>): Server<C> {
    var s1 := if Hup in h.revents && In !in h.revents then s.(quit := true) else s;
    if h.revents * {In, Pri, Rdhup} != {} then Block(Accept(s1, h.newConn, h.newFd), h.blocked) else s1
  }

  function Dispatch<C>(s: Server<C>, c: C, h: Happening<C>): Server<C>
    requires c in s.reg.chans
  {
    if c == s.acceptor then HandleAcceptor(s, h) else HandleConnection(s, c, h)
  }

  /** A successful accept opens an fd that is not open, and new objects have new addresses. */
  predicate Possible<C>(s: Server<C>, h: Happening<C>) {
    h.newFd >= 0 && h.newFd !in s.reg.open && h.newConn !in s.reg.chans
  }

  // ------------------------------------------------------------- invariant

  predicate IsAdded<C>(s: Server<C>, c: C) {
    c in s.reg.chans && s.reg.chans[c].index == Added && READ_EVENT <= s.reg.chans[c].events
  }

  /** A channel is the acceptor's, or of an open connection, or closed; exactly the closed
      ones have had their close callback, once. */
  predicate Settled<C>(s: Server<C>, c: C)
    requires c in s.reg.chans
  {
    && (c == s.acceptor || Alive(s, c) ==> IsAdded(s, c) && s.closes[c] == 0)
    && (c != s.acceptor && !Alive(s, c) ==> s.reg.chans[c].index == New && s.closes[c] == 1)
  }

  ghost predicate Inv<C>(s: Server<C>) {
    && Agrees(s.reg)
    && s.acceptor in s.reg.chans && !Alive(s, s.acceptor)
    && s.reg.chans[s.acceptor].fd !in s.connections
    && (forall c :: c in s.reg.chans ==> Settled(s, c))
    && (forall fd :: fd in s.connections ==>
          s.connections[fd] in s.reg.chans && s.reg.chans[s.connections[fd]].fd == fd)
    && (forall c :: c in s.closes ==> c in s.reg.chans)
    && s.reg.failures == |s.closes|
  }

  lemma OwnsItsFd<C>(s: Server<C>, c: C)
    requires Inv(s) && (c == s.acceptor || Alive(s, c))
    ensures Owner(s.reg, c)
  {
    assert Settled(s, c) && ChanAgrees(s.reg, c);
    forall j | j in s.reg.chans && j != c && s.reg.chans[j].fd == s.reg.chans[c].fd
      ensures s.reg.chans[j].index == New
    {
      assert ChanAgrees(s.reg, j);
    }
  }

  lemma AddedStaysAdded<C>(r: Registry<C>, c: C, change: Change)
    requires c in r.chans && r.chans[c].index == Added && READ_EVENT <= r.chans[c].events
    requires change != DisableAll
    ensures var events := r.Wanted(change, r.chans[c].events);
            READ_EVENT <= events && r.ChangeEvents(c, change).chans == r.chans[c := r.chans[c].(events := events)]
  {
    assert In in READ_EVENT;
  }

  /** Changing the wanted events of a channel keeps its read events. */
  lemma ChangeKeepsInv<C>(s: Server<C>, c: C, change: Change)
    requires Inv(s) && (c == s.acceptor || Alive(s, c)) && change != DisableAll
    ensures Inv(s.(reg := s.reg.ChangeEvents(c, change)))
    ensures forall j :: Alive(s.(reg := s.reg.ChangeEvents(c, change)), j) <==> Alive(s, j)
  {
    var r' := s.reg.ChangeEvents(c, change);
    OwnsItsFd(s, c);
    ChangeKeepsAgreement(s.reg, c, change);
    assert Settled(s, c);
    AddedStaysAdded(s.reg, c, change);
    ChangeRest(s.reg, c, change);
    RegistryKeepsInv(s, r', c);
  }

  lemma RegistryKeepsInv<C>(s: Server<C>, r': Registry<C>, c: C)
    requires Inv(s) && Agrees(r') && (c == s.acceptor || Alive(s, c)) && c in s.reg.chans
    requires r'.failures == s.reg.failures && r'.chans.Keys == s.reg.chans.Keys
    requires r'.chans[c].index == Added && READ_EVENT <= r'.chans[c].events
    requires r'.chans[c].fd == s.reg.chans[c].fd
    requires forall j :: j in s.reg.chans && j != c ==> r'.chans[j] == s.reg.chans[j]
    ensures Inv(s.(reg := r'))
    ensures forall j :: Alive(s.(reg := r'), j) <==> Alive(s, j)
  {
    var s' := s.(reg := r');
    forall j | j in r'.chans ensures Settled(s', j) {
      assert Settled(s, j) && Settled(s, c);
    }
  }

  /** A Send that blocks keeps the books exactly if its connection is still open. On a closed
      one, whose fd another connection may have by now, it registers a dead channel. */
  lemma BlockedSendIff<C>(s: Server<C>, c: C)
    requires Inv(s) && c in s.reg.chans && c != s.acceptor
    ensures Inv(s.(reg := s.reg.ChangeEvents(c, EnableWriting))) <==> Alive(s, c)
  {
    if Alive(s, c) {
      ChangeKeepsInv(s, c, EnableWriting);
    } else {
      var s' := s.(reg := s.reg.ChangeEvents(c, EnableWriting));
      ChangeRest(s.reg, c, EnableWriting);
      assert Settled(s, c);
      assert s'.reg.chans[c].index == Added;
      assert !Settled(s', c);
    }
  }

  lemma {:induction false} BlockKeepsInv<C>(s: Server<C>, blocked: seq<C>)
    requires Inv(s)
    ensures var s' := Block(s, blocked);
            && Inv(s') && s'.acceptor == s.acceptor && s'.connections == s.connections
            && s'.reg.chans.Keys == s.reg.chans.Keys
            && s'.reg.open == s.reg.open
            && forall j :: j in s.reg.chans ==> s'.reg.chans[j].fd == s.reg.chans[j].fd
    decreases |blocked|
  {
    if blocked != [] {
      if Alive(s, blocked[0]) {
        ChangeKeepsInv(s, blocked[0], EnableWriting);
        ChangeRest(s.reg, blocked[0], EnableWriting);
        BlockKeepsInv(s.(reg := s.reg.ChangeEvents(blocked[0], EnableWriting)), blocked[1..]);
      } else {
        BlockKeepsInv(s, blocked[1..]);
      }
    }
  }

  /** A new channel under an fd that was not open until now. */
  lemma NewSocketAgrees<C>(r: Registry<C>, c: C, fd: int)
    requires Agrees(r) && c !in r.chans && fd !in r.open
    ensures var r' := NewSocket(r.Open(fd), c, fd);
            && Agrees(r') && Owner(r', c) && r'.failures == r.failures
            && r'.open == r.open + {fd}
            && r'.chans == r.chans[c := Chan(fd, READ_EVENT, Added)]
  {
    var r1 := r.Open(fd).Create(c, fd);
    forall j | j in r1.chans ensures ChanAgrees(r1, j) {
      assert j != c ==> ChanAgrees(r, j);
    }
    forall d ensures FdAgrees(r1, d) {
      assert FdAgrees(r, d);
    }
    forall j | j in r1.chans && j != c && r1.chans[j].fd == fd ensures r1.chans[j].index == New {
      assert ChanAgrees(r, j);
    }
    ChangeKeepsAgreement(r1, c, EnableReading);
    ChangeRest(r1, c, EnableReading);
    assert {} + READ_EVENT == READ_EVENT;
    assert r1.ChangeEvents(c, EnableReading).chans == r.chans[c := Chan(fd, READ_EVENT, Added)];
  }

  /** The second update of an added channel changes nothing but the kernel's copy. */
  lemma RefreshAgrees<C>(r: Registry<C>, c: C)
    requires Agrees(r) && Owner(r, c) && r.chans[c].index == Added && READ_EVENT <= r.chans[c].events
    ensures var r' := r.UpdateChannel(c);
            && Agrees(r') && r'.failures == r.failures && r'.chans == r.chans && r'.open == r.open
  {
    assert r.chans[c := r.chans[c].(events := r.chans[c].events)] == r.chans;
    assert r.ChangeEvents(c, Refresh) == r.UpdateChannel(c);
    ChangeKeepsAgreement(r, c, Refresh);
    AddedStaysAdded(r, c, Refresh);
    ChangeRest(r, c, Refresh);
  }

  lemma ConnectionsAreOpen<C>(s: Server<C>)
    requires Inv(s)
    ensures s.connections.Keys <= s.reg.open
  {
    forall fd | fd in s.connections ensures fd in s.reg.open {
      OwnsItsFd(s, s.connections[fd]);
    }
  }

  /** Accepting keeps the invariant exactly if accept(2) has succeeded. The insert never meets
      an old entry, although the kernel may reuse the fd of any closed connection. */
  lemma AcceptKeepsInvIff<C>(s: Server<C>, c: C, fd: int)
    requires Inv(s) && c !in s.reg.chans && fd !in s.reg.open
    ensures fd !in s.connections
    ensures Inv(Accept(s, c, fd)) <==> fd >= 0
    ensures fd >= 0 ==> Alive(Accept(s, c, fd), c)
    ensures fd >= 0 ==> forall j :: j in s.reg.chans ==> (Alive(Accept(s, c, fd), j) <==> Alive(s, j))
  {
    ConnectionsAreOpen(s);
    OwnsItsFd(s, s.acceptor);
    if fd < 0 {
      FailedAccept(s, c, fd);
    } else {
      NewSocketAgrees(s.reg, c, fd);
      RefreshAgrees(NewSocket(s.reg.Open(fd), c, fd), c);
      AcceptSettles(s, Accept(s, c, fd), c, fd);
    }
  }

  /** Two epoll_ctl calls fail, and the channel counts as added without being so. */
  lemma FailedAccept<C>(s: Server<C>, c: C, fd: int)
    requires Inv(s) && c !in s.reg.chans && fd !in s.reg.open && fd < 0
    ensures var r := Accept(s, c, fd).reg;
            && fd in r.channels && fd !in r.interest && r.failures == s.reg.failures + 2 && !Agrees(r)
  {
    var r := Accept(s, c, fd).reg;
    assert FdAgrees(s.reg, fd);
    assert In in READ_EVENT;
    assert r.chans[c].index == Added && fd !in r.interest;
    assert !ChanAgrees(r, c);
  }

  lemma AcceptSettles<C>(s: Server<C>, s': Server<C>, c: C, fd: int)
    requires Inv(s) && c !in s.reg.chans && fd !in s.connections && fd != s.reg.chans[s.acceptor].fd
    requires Agrees(s'.reg) && s'.reg.failures == s.reg.failures
    requires s'.reg.chans == s.reg.chans[c := Chan(fd, READ_EVENT, Added)]
    requires s'.connections == s.connections[fd := c]
    requires s'.acceptor == s.acceptor && s'.closes == s.closes
    ensures Inv(s') && Alive(s', c)
    ensures forall j :: j in s.reg.chans ==> (Alive(s', j) <==> Alive(s, j))
  {
    forall j | j in s.reg.chans ensures Alive(s', j) <==> Alive(s, j) {
      if s.reg.chans[j].fd == fd { assert s'.connections[fd] != j; }
    }
    forall j | j in s'.reg.chans ensures Settled(s', j) {
      assert j != c ==> Settled(s, j);
    }
  }

  /** In the middle of handleClose, after close(2) and before the channel is removed, the books
      do not agree: the fd is in channels_ and in connections_, but no longer in the interest
      set. */
  lemma CloseDisagrees<C>(s: Server<C>, c: C)
    requires Inv(s) && Alive(s, c)
    ensures var fd := s.reg.chans[c].fd;
            var r := s.reg.Close(fd);
            && fd in r.channels && fd in s.connections && fd !in r.interest
            && r.chans[c].index == Added && !Agrees(r)
  {
    var r := s.reg.Close(s.reg.chans[c].fd);
    assert Settled(s, c) && ChanAgrees(s.reg, c);
    assert !ChanAgrees(r, c);
  }

  lemma CloseEffect<C>(r: Registry<C>, c: C)
    requires c in r.chans && r.chans[c].index == Added
    ensures var fd := r.chans[c].fd;
            r.Close(fd).RemoveChannel(c) == Registry(
              r.chans[c := r.chans[c].(index := New)], r.channels - {fd}, r.open - {fd},
              r.interest - {fd}, r.failures + 1)
  {
  }

  /** handleClose restores the agreement. Its EPOLL_CTL_DEL fails, since the fd is closed. */
  lemma CloseKeepsInv<C>(s: Server<C>, c: C)
    requires Inv(s) && Alive(s, c)
    ensures Inv(HandleClose(s, c)) && !Alive(HandleClose(s, c), c)
    ensures forall j :: j in s.reg.chans && j != c ==> (Alive(HandleClose(s, c), j) <==> Alive(s, j))
    ensures s.reg.chans[c].fd !in HandleClose(s, c).reg.open
    ensures HandleClose(s, c).reg.failures == s.reg.failures + 1
  {
    var s' := HandleClose(s, c);
    assert Settled(s, c);
    CloseEffect(s.reg, c);
    OwnsItsFd(s, c);
    CloseAgrees(s.reg, c, s'.reg);
    forall j | j in s.reg.chans && j != c ensures Alive(s', j) <==> Alive(s, j) {
      if Alive(s, j) { OwnsItsFd(s, j); }
    }
    forall j | j in s'.reg.chans ensures Settled(s', j) {
      assert Settled(s, j);
    }
  }

  lemma CloseAgrees<C>(r: Registry<C>, c: C, r': Registry<C>)
    requires Agrees(r) && Owner(r, c)
    requires r' == Registry(r.chans[c := r.chans[c].(index := New)], r.channels - {r.chans[c].fd},
                            r.open - {r.chans[c].fd}, r.interest - {r.chans[c].fd}, r'.failures)
    ensures Agrees(r')
  {
    forall j | j in r'.chans ensures ChanAgrees(r', j) {
      assert ChanAgrees(r, j);
    }
    forall d ensures FdAgrees(r', d) {
      assert FdAgrees(r, d);
    }
  }

  // ------------------------------------------------------------- dispatching

  lemma {:induction false} BlockKeepsAlive<C>(s: Server<C>, blocked: seq<C>)
    requires Inv(s)
    ensures forall j :: Alive(Block(s, blocked), j) <==> Alive(s, j)
    decreases |blocked|
  {
    if blocked != [] {
      if Alive(s, blocked[0]) {
        ChangeKeepsInv(s, blocked[0], EnableWriting);
        BlockKeepsAlive(s.(reg := s.reg.ChangeEvents(blocked[0], EnableWriting)), blocked[1..]);
      } else {
        BlockKeepsAlive(s, blocked[1..]);
      }
    }
  }

  /** The connection was closed by this dispatch: reads and writes now fail. */
  predicate Closed<C>(s: Server<C>, c: C) { c in s.reg.chans && s.reg.chans[c].fd !in s.reg.open }

  /** s' has come from s by handling c only. */
  ghost predicate Follows<C>(s: Server<C>, s': Server<C>, c: C) {
    && Inv(s') && (Alive(s', c) || Closed(s', c))
    && s'.acceptor == s.acceptor && s'.reg.chans.Keys == s.reg.chans.Keys
    && forall j :: j in s.reg.chans && j != c && Alive(s, j) ==> Alive(s', j)
  }

  lemma CloseFollows<C>(s: Server<C>, c: C, h: Happening<C>)
    requires Inv(s) && Alive(s, c)
    ensures Follows(s, CloseAndNotify(s, c, h), c)
  {
    CloseKeepsInv(s, c);
    assert Settled(s, c);
    CloseEffect(s.reg, c);
    BlockKeepsInv(HandleClose(s, c), h.blocked);
    BlockKeepsAlive(HandleClose(s, c), h.blocked);
  }

  lemma HangupFollows<C>(s: Server<C>, c: C, h: Happening<C>)
    requires Inv(s) && Alive(s, c)
    ensures Follows(s, OnHangup(s, c, h), c)
  {
    CloseFollows(s, c, h);
  }

  lemma ReadFollows<C>(s: Server<C>, c: C, h: Happening<C>)
    requires Inv(s) && (Alive(s, c) || Closed(s, c))
    ensures Follows(s, OnReadable(s, c, h), c)
  {
    if !Closed(s, c) {
      if h.read > 0 {
        BlockKeepsInv(s, h.blocked);
        BlockKeepsAlive(s, h.blocked);
      } else if h.read == 0 {
        CloseFollows(s, c, h);
      }
    }
  }

  lemma WriteFollows<C>(s: Server<C>, c: C, h: Happening<C>)
    requires Inv(s) && (Alive(s, c) || Closed(s, c))
    ensures Follows(s, OnWritable(s, c, h), c)
  {
    if !Closed(s, c) {
      ChangeKeepsInv(s, c, DisableWriting);
      ChangeRest(s.reg, c, DisableWriting);
    }
  }

  lemma FollowsThrough<C>(s: Server<C>, s1: Server<C>, s2: Server<C>, s3: Server<C>, c: C)
    requires Follows(s, s1, c) && Follows(s1, s2, c) && Follows(s2, s3, c)
    ensures Follows(s, s3, c)
  {
  }

  lemma ConnectionKeepsInv<C>(s: Server<C>, c: C, h: Happening<C>)
    requires Inv(s) && Alive(s, c)
    ensures Follows(s, HandleConnection(s, c, h), c)
  {
    HangupFollows(s, c, h);
    var s1 := OnHangup(s, c, h);
    ReadFollows(s1, c, h);
    var s2 := OnReadable(s1, c, h);
    WriteFollows(s2, c, h);
    FollowsThrough(s, s1, s2, OnWritable(s2, c, h), c);
  }

  lemma QuitKeepsInv<C>(s: Server<C>)
    requires Inv(s)
    ensures Inv(s.(quit := true))
    ensures forall j :: Alive(s.(quit := true), j) <==> Alive(s, j)
  {
    var s1 := s.(quit := true);
    forall j | j in s1.reg.chans ensures Settled(s1, j) { assert Settled(s, j); }
  }

  lemma AcceptFollows<C>(s: Server<C>, c: C, fd: int, blocked: seq<C>)
    requires Inv(s) && c !in s.reg.chans && fd !in s.reg.open && fd >= 0
    ensures var s' := Block(Accept(s, c, fd), blocked);
            && Inv(s') && s'.acceptor == s.acceptor
            && forall j :: j in s.reg.chans && Alive(s, j) ==> Alive(s', j)
  {
    AcceptKeepsInvIff(s, c, fd);
    var s1 := Accept(s, c, fd);
    assert s1.acceptor == s.acceptor;
    BlockKeepsInv(s1, blocked);
    BlockKeepsAlive(s1, blocked);
  }

  lemma AcceptorKeepsInv<C>(s: Server<C>, h: Happening<C>)
    requires Inv(s) && Possible(s, h)
    ensures var s' := HandleAcceptor(s, h);
            && Inv(s') && s'.acceptor == s.acceptor
            && forall j :: j in s.reg.chans && Alive(s, j) ==> Alive(s', j)
  {
    QuitKeepsInv(s);
    AcceptFollows(if Hup in h.revents && In !in h.revents then s.(quit := true) else s,
                  h.newConn, h.newFd, h.blocked);
  }

  /** Handling one ready channel keeps the invariant, and closes at most its own connection. */
  lemma DispatchKeepsInv<C>(s: Server<C>, c: C, h: Happening<C>)
    requires Inv(s) && Possible(s, h) && (c == s.acceptor || Alive(s, c))
    ensures var s' := Dispatch(s, c, h);
            && Inv(s') && s'.acceptor == s.acceptor
            && forall j :: j in s.reg.chans && j != c && Alive(s, j) ==> Alive(s', j)
  {
    if c == s.acceptor { AcceptorKeepsInv(s, h); } else { ConnectionKeepsInv(s, c, h); }
  }

  // -------------------------------------------------------------- the event loop

  datatype Ready<!C(==)> = Ready(chan: C, happening: Happening<C>)

  /** The channels epoll_wait reports: all different, all in the interest set. */
  ghost predicate Reported<C>(s: Server<C>, batch: seq<Ready<C>>) {
    && (forall i, j :: 0 <= i < j < |batch| ==> batch[i].chan != batch[j].chan)
    && (forall i :: 0 <= i < |batch| ==> InInterest(s, batch[i].chan))
  }

  ghost predicate InInterest<C>(s: Server<C>, c: C) {
    exists fd :: fd in s.reg.interest && s.reg.interest[fd].chan == c
  }

  predicate Feasible<C>(s: Server<C>, batch: seq<Ready<C>>)
    decreases |batch|
  {
    batch == [] ||
    (&& batch[0].chan in s.reg.chans && Possible(s, batch[0].happening)
     && Feasible(Dispatch(s, batch[0].chan, batch[0].happening), batch[1..]))
  }

  function HandleBatch<C>(s: Server<C>, batch: seq<Ready<C>>): Server<C>
    requires Feasible(s, batch)
    decreases |batch|
  {
    if batch == [] then s else HandleBatch(Dispatch(s, batch[0].chan, batch[0].happening), batch[1..])
  }

  lemma {:induction false} BatchKeepsInv<C>(s: Server<C>, batch: seq<Ready<C>>)
    requires Inv(s) && Feasible(s, batch)
    requires forall i, j :: 0 <= i < j < |batch| ==> batch[i].chan != batch[j].chan
    requires forall i :: 0 <= i < |batch| ==> batch[i].chan == s.acceptor || Alive(s, batch[i].chan)
    ensures Inv(HandleBatch(s, batch)) && HandleBatch(s, batch).acceptor == s.acceptor
    decreases |batch|
  {
    if batch != [] {
      DispatchKeepsInv(s, batch[0].chan, batch[0].happening);
      BatchKeepsInv(Dispatch(s, batch[0].chan, batch[0].happening), batch[1..]);
    }
  }

  lemma ReportedIsAlive<C>(s: Server<C>, c: C)
    requires Inv(s) && InInterest(s, c)
    ensures c == s.acceptor || Alive(s, c)
  {
    var fd :| fd in s.reg.interest && s.reg.interest[fd].chan == c;
    assert FdAgrees(s.reg, fd) && Settled(s, c);
  }

  /** One turn: a batch, then the pending functors, which are never cleared; sent: the
      connections on which their Sends block. */
  datatype Turn<!C(==)> = Turn(batch: seq<Ready<C>>, sent: seq<C>)

  function TakeTurn<C>(s: Server<C>, turn: Turn<C>): Server<C>
    requires Feasible(s, turn.batch)
  {
    Block(HandleBatch(s, turn.batch), turn.sent)
  }

  /** The turns of EventLoop::loop, until quit. */
  ghost predicate Turns<C>(s: Server<C>, turns: seq<Turn<C>>)
    decreases |turns|
  {
    turns == [] ||
    (&& !s.quit && Reported(s, turns[0].batch) && Feasible(s, turns[0].batch)
     && Turns(TakeTurn(s, turns[0]), turns[1..]))
  }

  ghost function Loop<C>(s: Server<C>, turns: seq<Turn<C>>): Server<C>
    requires Turns(s, turns)
    decreases |turns|
  {
    if turns == [] then s else Loop(TakeTurn(s, turns[0]), turns[1..])
  }

  lemma TurnKeepsInv<C>(s: Server<C>, turn: Turn<C>)
    requires Inv(s) && Reported(s, turn.batch) && Feasible(s, turn.batch)
    ensures Inv(TakeTurn(s, turn))
  {
    forall i | 0 <= i < |turn.batch|
      ensures turn.batch[i].chan == s.acceptor || Alive(s, turn.batch[i].chan)
    {
      ReportedIsAlive(s, turn.batch[i].chan);
    }
    BatchKeepsInv(s, turn.batch);
    BlockKeepsInv(HandleBatch(s, turn.batch), turn.sent);
  }

  lemma {:induction false} LoopKeepsInv<C>(s: Server<C>, turns: seq<Turn<C>>)
    requires Inv(s) && Turns(s, turns)
    ensures Inv(Loop(s, turns))
    decreases |turns|
  {
    if turns != [] {
      TurnKeepsInv(s, turns[0]);
      LoopKeepsInv(TakeTurn(s, turns[0]), turns[1..]);
    }
  }

  /** TcpServer::start: a listening socket, nothing else registered. */
  function Started<C>(acceptor: C, fd: int, otherFds: set<int>): Server<C> {
    Server(NewSocket(Registry(map[], map[], otherFds + {fd}, map[], 0), acceptor, fd),
           map[], acceptor, multiset{}, false)
  }

  lemma StartedHolds<C>(acceptor: C, fd: int, otherFds: set<int>)
    requires fd !in otherFds
    ensures Inv(Started(acceptor, fd, otherFds))
  {
    var r: Registry<C> := Registry(map[], map[], otherFds, map[], 0);
    NewSocketAgrees(r, acceptor, fd);
    assert NewSocket(r.Open(fd), acceptor, fd) == Started(acceptor, fd, otherFds).reg;
  }

  /** Over every run of the loop, whatever is ready and whatever reads and writes return: between
      turns, connections_ and the acceptor are exactly what is registered with the Poller and
      with the kernel; a registered connection wants to read and has not been closed; every
      close callback has run at most once; and the only epoll_ctl calls that ever failed are
      the deletions after close(2), one per closed connection. */
  lemma BooksAgree<C>(acceptor: C, fd: int, otherFds: set<int>, turns: seq<Turn<C>>)
    requires fd !in otherFds && Turns(Started(acceptor, fd, otherFds), turns)
    ensures var s := Loop(Started(acceptor, fd, otherFds), turns);
            && s.acceptor in s.reg.chans
            && s.reg.channels.Keys == s.reg.interest.Keys
                 == s.connections.Keys + {s.reg.chans[s.acceptor].fd}
            && s.reg.chans[s.acceptor].fd !in s.connections
            && (forall d :: d in s.connections ==>
                  && s.reg.channels[d] == s.connections[d] == s.reg.interest[d].chan
                  && READ_EVENT <= s.reg.interest[d].mask
                  && s.closes[s.connections[d]] == 0)
            && (forall c :: s.closes[c] <= 1)
            && s.reg.failures == |s.closes|
  {
    StartedHolds(acceptor, fd, otherFds);
    LoopKeepsInv(Started(acceptor, fd, otherFds), turns);
    InvMeansAgreement(Loop(Started(acceptor, fd, otherFds), turns));
  }

  lemma InvMeansAgreement<C>(s: Server<C>)
    requires Inv(s)
    ensures s.reg.channels.Keys == s.reg.interest.Keys == s.connections.Keys + {s.reg.chans[s.acceptor].fd}
    ensures forall d :: d in s.connections ==>
              && s.reg.channels[d] == s.connections[d] == s.reg.interest[d].chan
              && READ_EVENT <= s.reg.interest[d].mask
              && s.closes[s.connections[d]] == 0
    ensures forall c :: s.closes[c] <= 1
  {
    var a := s.reg.chans[s.acceptor].fd;
    assert Settled(s, s.acceptor) && ChanAgrees(s.reg, s.acceptor);
    forall d | d in s.connections
      ensures d in s.reg.channels && d in s.reg.interest
      ensures s.reg.channels[d] == s.connections[d] == s.reg.interest[d].chan
      ensures READ_EVENT <= s.reg.interest[d].mask && s.closes[s.connections[d]] == 0
    {
      var c := s.connections[d];
      assert Settled(s, c) && ChanAgrees(s.reg, c);
    }
    forall d | d in s.reg.channels || d in s.reg.interest ensures d in s.connections || d == a {
      assert FdAgrees(s.reg, d);
      var c := if d in s.reg.channels then s.reg.channels[d] else s.reg.interest[d].chan;
      assert Settled(s, c);
    }
    forall c ensures s.closes[c] <= 1 {
      if c in s.closes { assert Settled(s, c); }
    }
  }
}
