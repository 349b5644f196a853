/** Socket and TcpServer: the connection handlers that update buffers, channel and server maps
    in place, proved against the functions of Output and Lifecycle. What the kernel returns
    is a parameter of each handler; the application's callbacks are not part of these methods
    (see Lifecycle for what they may do). */
module NetServer {
  import opened Basics
  import opened Codec
  import opened ByteQueue
  import opened NetBuffer
  import opened Registration
  import opened Reactor
  import Output
  import Lifecycle

  const EBADF: int := 9

  class Socket {
    const fd_: int
    const chan_: Channel
    const inputBuffer_: Buffer
    const outputBuffer_: Buffer
    ghost var wire: seq<byte>
    ghost var accepted: seq<seq<byte>>

    ghost predicate Valid()
      reads this, inputBuffer_, outputBuffer_
    {
      && chan_.fd_ == fd_
      && inputBuffer_ != outputBuffer_ && inputBuffer_.buffer_ != outputBuffer_.buffer_
      && inputBuffer_.Valid() && outputBuffer_.Valid()
    }

    ghost function Sending(): (c: Output.Conn<byte>)
      requires Valid()
      reads this, inputBuffer_, outputBuffer_, outputBuffer_.buffer_, chan_
      ensures c.out.Valid() && |c.out.content| == outputBuffer_.ReadableBytes()
    {
      Output.Conn(wire, outputBuffer_.View(), Out in chan_.events_, accepted)
    }

    constructor (loop: Poller, fd: int)
      modifies loop, loop.kernel
      ensures Valid() && fd_ == fd && fresh(chan_) && fresh(inputBuffer_) && fresh(outputBuffer_)
      ensures fresh(inputBuffer_.buffer_) && fresh(outputBuffer_.buffer_)
      ensures inputBuffer_.View() == Fresh()
      ensures Sending() == Output.Conn([], Fresh(), false, [])
      ensures loop.known == old(loop.known) + {chan_}
      ensures loop.Reg() == Lifecycle.NewSocket(old(loop.Reg()), chan_, fd)
    {
      fd_ := fd;
      chan_ := new Channel(fd);
      inputBuffer_ := new Buffer();
      outputBuffer_ := new Buffer();
      wire, accepted := [], [];
      new;
      assert loop.Reg() == old(loop.Reg());
      AttachChannel(loop);
    }

    /** The end of the constructor: the buffers are not touched. */
    method AttachChannel(loop: Poller)
      requires Valid() && chan_ !in loop.known && chan_.State() == Chan(fd_, {}, New)
      modifies loop, loop.kernel, chan_`events_, chan_`index_
      ensures loop.known == old(loop.known) + {chan_} && chan_.events_ == READ_EVENT
      ensures Valid() && inputBuffer_.View() == old(inputBuffer_.View())
      ensures outputBuffer_.View() == old(outputBuffer_.View())
      ensures loop.Reg() == Lifecycle.NewSocket(old(loop.Reg()), chan_, fd_)
    {
      loop.Attach(chan_);
    }

    method Send(data: seq<byte>, w: Output.WriteResult, loop: Poller) returns (ret: int)
      requires Valid() && chan_ in loop.known && Output.Possible(w, |data|)
      modifies this`wire, this`accepted, outputBuffer_, outputBuffer_.buffer_
      modifies chan_`events_, chan_`index_, loop`channels_, loop.kernel
      ensures Valid() && (Sending(), ret) == Output.Send(old(Sending()), data, w)
      ensures ret == 0 <==> w.Wrote?
      ensures w.WriteFailed? ==> ret == w.errno
      ensures ret == 0 ==> accepted == old(accepted) + [data]
      ensures ret != 0 ==> accepted == old(accepted) && wire == old(wire)
      ensures ret != 0 ==> outputBuffer_.View() == old(outputBuffer_.View())
      ensures outputBuffer_.buffer_ == old(outputBuffer_.buffer_) || fresh(outputBuffer_.buffer_)
      ensures loop.Reg() == if w.WriteFailed? && w.errno == Output.EAGAIN
                            then old(loop.Reg()).ChangeEvents(chan_, EnableWriting) else old(loop.Reg())
    {
      if w == Output.Wrote(|data|) {
        wire := wire + data;
        accepted := accepted + [data];
        return 0;
      }
      if w.Wrote? {
        outputBuffer_.Append(data[w.n..]);
        wire := wire + data[..w.n];
        accepted := accepted + [data];
        return 0;
      }
      if w.errno == Output.EAGAIN {
        chan_.EnableWriting(loop);
      }
      return w.errno;
    }

    method HandleWrite(w: Output.WriteResult, loop: Poller)
      requires Valid() && chan_ in loop.known && Output.Possible(w, outputBuffer_.ReadableBytes())
      modifies this`wire, outputBuffer_
      modifies chan_`events_, chan_`index_, loop`channels_, loop.kernel
      ensures Valid() && Sending() == Output.HandleWrite(old(Sending()), w)
      ensures loop.Reg() == if w.Wrote? && w.n > 0 && w.n == old(outputBuffer_.ReadableBytes())
                            then old(loop.Reg()).ChangeEvents(chan_, DisableWriting) else old(loop.Reg())
    {
      if w.Wrote? && w.n > 0 {
        wire := wire + outputBuffer_.View().content[..w.n];
        outputBuffer_.Retrieve(w.n);
        if outputBuffer_.ReadableBytes() == 0 {
          chan_.DisableWriting(loop);
        }
      }
    }

    /** handleClose: close(2), then the channel, then the server's close callback. */
    method HandleClose(server: TcpServer)
      requires Valid() && chan_ in server.loop.known
      modifies server, server.loop, server.loop.kernel, chan_`index_
      ensures server.Abs() == Lifecycle.HandleClose(old(server.Abs()), chan_)
      ensures server.loop.known == old(server.loop.known)
      ensures server.loop.kernel.open == old(server.loop.kernel.open) - {fd_}
    {
      server.loop.Close(fd_);
      server.loop.RemoveChannel(chan_);
      server.ConnectionClose(this);
    }
  }

  class TcpServer {
    const loop: Poller
    const acceptor: Socket
    var connections_: map<int, Socket>
    ghost var closes: multiset<Channel>
    var quit: bool

    ghost function Connections(): map<int, Channel>
      reads this
    {
      map fd | fd in connections_ :: connections_[fd].chan_
    }

    ghost function Abs(): Lifecycle.Server<Channel>
      reads this, loop, loop.kernel, loop.known
    {
      Lifecycle.Server(loop.Reg(), Connections(), acceptor.chan_, closes, quit)
    }

    /** TcpServer::start up to the loop: the acceptor's socket is the only channel. */
    constructor (fd: int, otherFds: set<int>)
      ensures Abs() == Lifecycle.Started(acceptor.chan_, fd, otherFds)
      ensures acceptor.Valid() && fresh(loop) && fresh(loop.kernel)
    {
      var kernel := new Kernel(otherFds + {fd});
      var poller := new Poller(kernel);
      var socket := new Socket(poller, fd);
      loop := poller;
      acceptor := socket;
      connections_, closes, quit := map[], multiset{}, false;
    }

    /** accept: the kernel has opened connfd, or the call failed and connfd is negative. */
    method Accept(connfd: int) returns (conn: Socket)
      modifies this, loop, loop.kernel
      ensures conn.Valid() && conn.fd_ == connfd && fresh(conn) && fresh(conn.chan_)
      ensures Abs() == Lifecycle.Accept(old(Abs()), conn.chan_, connfd)
    {
      conn := NewConnection(connfd);
      Refresh(conn);
    }

    /** Channel::handleEvent on the acceptor's channel: the close callback quits, the read
        callback accepts. */
    method HandleAcceptor(connfd: int) returns (conn: Socket?)
      modifies this, loop, loop.kernel
      ensures conn != null <==> acceptor.chan_.revents_ * {In, Pri, Rdhup} != {}
      ensures conn != null ==> fresh(conn) && conn.Valid() && conn.fd_ == connfd
      ensures var newConn: Channel := if conn == null then acceptor.chan_ else conn.chan_;
              Abs() == Lifecycle.HandleAcceptor(
                old(Abs()), Lifecycle.Happening(acceptor.chan_.revents_, 0, false, newConn, connfd, []))
    {
      conn := null;
      if Hup in acceptor.chan_.revents_ && In !in acceptor.chan_.revents_ {
        quit := true;
      }
      if acceptor.chan_.revents_ * {In, Pri, Rdhup} != {} {
        conn := Accept(connfd);
      }
    }

    method NewConnection(connfd: int) returns (conn: Socket)
      modifies this, loop, loop.kernel
      ensures conn.Valid() && conn.fd_ == connfd && fresh(conn) && fresh(conn.chan_) && conn.chan_ in loop.known
      ensures Abs() == Lifecycle.Inserted(old(Abs()), conn.chan_, connfd)
    {
      conn := OpenSocket(connfd);
      ghost var r := loop.Reg();
      Insert(conn);
      assert loop.Reg() == r;
    }

    method OpenSocket(connfd: int) returns (conn: Socket)
      modifies loop, loop.kernel
      ensures conn.Valid() && conn.fd_ == connfd && fresh(conn) && fresh(conn.chan_) && conn.chan_ in loop.known
      ensures loop.Reg() == Lifecycle.NewSocket(old(loop.Reg()).Accepted(connfd), conn.chan_, connfd)
      ensures Connections() == old(Connections())
    {
      loop.Accepted(connfd);
      conn := new Socket(loop, connfd);
    }

    method Refresh(conn: Socket)
      requires conn.chan_ in loop.known
      modifies loop`channels_, loop.kernel, conn.chan_`index_
      ensures Abs() == Lifecycle.Refreshed(old(Abs()), conn.chan_)
    {
      loop.UpdateChannel(conn.chan_);
    }

    /** std::map::insert: an entry that is there stays. */
    method Insert(conn: Socket)
      modifies this`connections_
      ensures Connections() ==
                if conn.fd_ in old(Connections()) then old(Connections())
                else old(Connections())[conn.fd_ := conn.chan_]
    {
      if conn.fd_ !in connections_ {
        connections_ := connections_[conn.fd_ := conn];
      }
    }

    method ConnectionClose(conn: Socket)
      modifies this`connections_, this`closes
      ensures Connections() == old(Connections()) - {conn.fd_}
      ensures closes == old(closes) + multiset{conn.chan_}
    {
      connections_ := connections_ - {conn.fd_};
      closes := closes + multiset{conn.chan_};
    }

    /** What the kernel returned, as the events of Lifecycle. */
    ghost function Event(conn: Socket, got: ReadResult, w: Output.WriteResult): Lifecycle.Happening<Channel>
      requires conn.Valid()
      reads conn, conn.chan_, conn.inputBuffer_, conn.outputBuffer_
    {
      Lifecycle.Happening(
        conn.chan_.revents_,
        if got.Got? then |got.bytes| else -1,
        w.Wrote? && w.n > 0 && w.n == conn.outputBuffer_.ReadableBytes(),
        conn.chan_, 0, [])
    }

    /** The handler reaches a read, or a write, with the fd still open. */
    ghost predicate CanRead(conn: Socket)
      reads conn.chan_, loop.kernel
    {
      && conn.fd_ in loop.kernel.open && conn.chan_.revents_ * {In, Pri, Rdhup} != {}
      && !(Hup in conn.chan_.revents_ && In !in conn.chan_.revents_)
    }

    ghost predicate CanWrite(conn: Socket, got: ReadResult)
      reads conn.chan_, loop.kernel
    {
      && conn.fd_ in loop.kernel.open && Out in conn.chan_.revents_
      && !(Hup in conn.chan_.revents_ && In !in conn.chan_.revents_)
      && !(CanRead(conn) && got == Got([]))
    }

    /** Channel::handleEvent on a connection, with what read and write return on an open fd. */
    method HandleConnection(conn: Socket, got: ReadResult, w: Output.WriteResult)
      requires conn.Valid() && conn.chan_ in loop.known
      requires got.Got? ==> |got.bytes| <= conn.inputBuffer_.View().Offered()
      requires Output.Possible(w, conn.outputBuffer_.ReadableBytes())
      modifies this, loop, loop.kernel, conn.chan_`events_, conn.chan_`index_, conn`wire
      modifies conn.inputBuffer_, conn.inputBuffer_.buffer_, conn.outputBuffer_
      ensures Abs() == Lifecycle.HandleConnection(old(Abs()), conn.chan_, old(Event(conn, got, w)))
      ensures conn.Valid()
      ensures conn.inputBuffer_.View() ==
                if old(CanRead(conn)) && got.Got? then old(conn.inputBuffer_.View()).Receive(got.bytes)
                else old(conn.inputBuffer_.View())
      ensures conn.Sending() ==
                if old(CanWrite(conn, got)) then Output.HandleWrite(old(conn.Sending()), w) else old(conn.Sending())
    {
      HandleEvent(conn, got, w, Event(conn, got, w));
    }

    method HandleEvent(conn: Socket, got: ReadResult, w: Output.WriteResult, ghost h: Lifecycle.Happening<Channel>)
      requires conn.Valid() && conn.chan_ in loop.known && h.revents == conn.chan_.revents_
      requires got.Got? ==> |got.bytes| <= conn.inputBuffer_.View().Offered()
      requires Output.Possible(w, conn.outputBuffer_.ReadableBytes())
      requires h.read == (if got.Got? then |got.bytes| else -1) && h.blocked == []
      requires h.drained == (w.Wrote? && w.n > 0 && w.n == conn.outputBuffer_.ReadableBytes())
      modifies this, loop, loop.kernel, conn.chan_`events_, conn.chan_`index_, conn`wire
      modifies conn.inputBuffer_, conn.inputBuffer_.buffer_, conn.outputBuffer_
      ensures Abs() == Lifecycle.HandleConnection(old(Abs()), conn.chan_, h)
      ensures conn.Valid()
      ensures conn.inputBuffer_.View() ==
                if old(CanRead(conn)) && got.Got? then old(conn.inputBuffer_.View()).Receive(got.bytes)
                else old(conn.inputBuffer_.View())
      ensures conn.Sending() ==
                if old(CanWrite(conn, got)) then Output.HandleWrite(old(conn.Sending()), w) else old(conn.Sending())
    {
      ghost var before, writes := conn.Sending(), CanWrite(conn, got);
      OnInput(conn, got, h);
      assert Out in conn.chan_.revents_ ==> (conn.fd_ in loop.kernel.open <==> writes);
      assert writes ==> Out in conn.chan_.revents_;
      assert conn.Sending() == before;
      OnWritable(conn, w, h);
      assert conn.Sending() == if writes then Output.HandleWrite(before, w) else before;
    }

    /** The first two tests of handleEvent: hang-up, then readable. */
    method OnInput(conn: Socket, got: ReadResult, ghost h: Lifecycle.Happening<Channel>)
      requires conn.Valid() && conn.chan_ in loop.known && h.revents == conn.chan_.revents_
      requires got.Got? ==> |got.bytes| <= conn.inputBuffer_.View().Offered()
      requires h.read == (if got.Got? then |got.bytes| else -1) && h.blocked == []
      modifies this, loop, loop.kernel, conn.chan_`index_, conn.inputBuffer_, conn.inputBuffer_.buffer_
      ensures conn.Valid() && loop.known == old(loop.known)
      ensures conn.Sending() == old(conn.Sending())
      ensures conn.outputBuffer_.ReadableBytes() == old(conn.outputBuffer_.ReadableBytes())
      ensures conn.inputBuffer_.View() ==
                if old(CanRead(conn)) && got.Got? then old(conn.inputBuffer_.View()).Receive(got.bytes)
                else old(conn.inputBuffer_.View())
      ensures Out in conn.chan_.revents_ ==> (conn.fd_ in loop.kernel.open <==> old(CanWrite(conn, got)))
      ensures Abs() == Lifecycle.OnInput(old(Abs()), conn.chan_, h)
    {
      OnHangup(conn, h);
      OnReadable(conn, got, h);
    }

    method OnHangup(conn: Socket, ghost h: Lifecycle.Happening<Channel>)
      requires conn.Valid() && conn.chan_ in loop.known && h.revents == conn.chan_.revents_
      requires h.blocked == []
      modifies this, loop, loop.kernel, conn.chan_`index_
      ensures loop.known == old(loop.known)
      ensures conn.Valid() && conn.Sending() == old(conn.Sending())
      ensures loop.kernel.open == if Hup in conn.chan_.revents_ && In !in conn.chan_.revents_
                                  then old(loop.kernel.open) - {conn.fd_} else old(loop.kernel.open)
      ensures Abs() == Lifecycle.OnHangup(old(Abs()), conn.chan_, h)
    {
      if Hup in conn.chan_.revents_ && In !in conn.chan_.revents_ {
        conn.HandleClose(this);
      }
    }

    method OnReadable(conn: Socket, got: ReadResult, ghost h: Lifecycle.Happening<Channel>)
      requires conn.Valid() && conn.chan_ in loop.known && h.revents == conn.chan_.revents_
      requires got.Got? ==> |got.bytes| <= conn.inputBuffer_.View().Offered()
      requires h.read == (if got.Got? then |got.bytes| else -1) && h.blocked == []
      modifies this, loop, loop.kernel, conn.chan_`index_, conn.inputBuffer_, conn.inputBuffer_.buffer_
      ensures conn.Valid() && loop.known == old(loop.known)
      ensures conn.Sending() == old(conn.Sending())
      ensures var hit := conn.fd_ in old(loop.kernel.open) && conn.chan_.revents_ * {In, Pri, Rdhup} != {};
              && conn.inputBuffer_.View() == (if hit && got.Got? then old(conn.inputBuffer_.View()).Receive(got.bytes)
                                              else old(conn.inputBuffer_.View()))
              && loop.kernel.open == (if hit && got == Got([]) then old(loop.kernel.open) - {conn.fd_}
                                      else old(loop.kernel.open))
      ensures Abs() == Lifecycle.OnReadable(old(Abs()), conn.chan_, h)
    {
      if conn.chan_.revents_ * {In, Pri, Rdhup} != {} {
        HandleRead(conn, got, h);
      }
    }

    method OnWritable(conn: Socket, w: Output.WriteResult, ghost h: Lifecycle.Happening<Channel>)
      requires conn.Valid() && conn.chan_ in loop.known && h.revents == conn.chan_.revents_
      requires Output.Possible(w, conn.outputBuffer_.ReadableBytes())
      requires h.drained == (w.Wrote? && w.n > 0 && w.n == conn.outputBuffer_.ReadableBytes())
      modifies loop`channels_, loop.kernel, conn.chan_`events_, conn.chan_`index_, conn`wire, conn.outputBuffer_
      ensures conn.Valid() && conn.inputBuffer_.View() == old(conn.inputBuffer_.View())
      ensures conn.Sending() == if conn.fd_ in old(loop.kernel.open) && Out in conn.chan_.revents_
                                then Output.HandleWrite(old(conn.Sending()), w) else old(conn.Sending())
      ensures Abs() == Lifecycle.OnWritable(old(Abs()), conn.chan_, h)
    {
      if Out in conn.chan_.revents_ {
        HandleWrite(conn, w, h);
      }
    }

    /** Socket::handleRead. Reading a closed fd fails. */
    method HandleRead(conn: Socket, got: ReadResult, ghost h: Lifecycle.Happening<Channel>)
      requires conn.Valid() && conn.chan_ in loop.known
      requires got.Got? ==> |got.bytes| <= conn.inputBuffer_.View().Offered()
      requires h.read == (if got.Got? then |got.bytes| else -1) && h.blocked == []
      modifies this, loop, loop.kernel, conn.chan_`index_, conn.inputBuffer_, conn.inputBuffer_.buffer_
      ensures conn.Valid() && loop.known == old(loop.known)
      ensures conn.inputBuffer_.View() ==
                if got.Got? && conn.fd_ in old(loop.kernel.open) then old(conn.inputBuffer_.View()).Receive(got.bytes)
                else old(conn.inputBuffer_.View())
      ensures conn.Sending() == old(conn.Sending())
      ensures loop.kernel.open == if conn.fd_ in old(loop.kernel.open) && got == Got([])
                                  then old(loop.kernel.open) - {conn.fd_} else old(loop.kernel.open)
      ensures Abs() == Lifecycle.HandleRead(old(Abs()), conn.chan_, h)
    {
      var result := if conn.fd_ in loop.kernel.open then got else ReadError(EBADF);
      var n, savedErrno := conn.inputBuffer_.ReadFd(result);
      assert Abs() == old(Abs());
      if n == 0 {
        conn.HandleClose(this);
      }
    }

    /** Socket::handleWrite. Writing to a closed fd fails. */
    method HandleWrite(conn: Socket, w: Output.WriteResult, ghost h: Lifecycle.Happening<Channel>)
      requires conn.Valid() && conn.chan_ in loop.known
      requires Output.Possible(w, conn.outputBuffer_.ReadableBytes())
      requires h.drained == (w.Wrote? && w.n > 0 && w.n == conn.outputBuffer_.ReadableBytes())
      modifies loop`channels_, loop.kernel, conn.chan_`events_, conn.chan_`index_, conn`wire, conn.outputBuffer_
      ensures conn.Valid()
      ensures conn.Sending() == if conn.fd_ in old(loop.kernel.open) then Output.HandleWrite(old(conn.Sending()), w)
                                else old(conn.Sending())
      ensures Abs() == Lifecycle.HandleWrite(old(Abs()), conn.chan_, h)
    {
      conn.HandleWrite(if conn.fd_ in loop.kernel.open then w else Output.WriteFailed(EBADF), loop);
    }
  }
}
