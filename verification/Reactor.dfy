/** The reactor as it is written: Channel, Poller and Socket objects whose fields the handlers
    update in place. Each method is proved against the functions of Registration and Output.
    Where the source reaches the Poller through EventLoop, which only forwards, the methods
    take the Poller. */
module Reactor {
  import opened Basics
  import opened Codec
  import opened ByteQueue
  import opened NetBuffer
  import opened Registration
  import Output

  class Channel {
    const fd_: int
    var events_: set<Flag>
    var revents_: set<Flag>
    var index_: Index

    constructor (fd: int)
      ensures fd_ == fd && State() == Chan(fd, {}, New) && revents_ == {}
    {
      fd_ := fd;
      events_, revents_, index_ := {}, {}, New;
    }

    function State(): Chan
      reads this
    {
      Chan(fd_, events_, index_)
    }

    method SetEvents(events: set<Flag>, ghost loop: Poller)
      requires this in loop.known
      modifies this`events_
      ensures events_ == events
      ensures loop.Reg() == old(loop.Reg()).SetEvents(this, events)
    {
      events_ := events;
    }

    /** What the four setters have in common: new events, then update(). */
    method Update(events: set<Flag>, ghost change: Change, loop: Poller)
      requires this in loop.known && events == loop.Reg().Wanted(change, events_)
      modifies this`events_, this`index_, loop`channels_, loop.kernel
      ensures events_ == events
      ensures loop.Reg() == old(loop.Reg()).ChangeEvents(this, change)
    {
      SetEvents(events, loop);
      loop.UpdateChannel(this);
    }

    method EnableReading(loop: Poller)
      requires this in loop.known
      modifies this`events_, this`index_, loop`channels_, loop.kernel
      ensures events_ == old(events_) + READ_EVENT
      ensures loop.Reg() == old(loop.Reg()).ChangeEvents(this, Change.EnableReading)
    {
      Update(events_ + READ_EVENT, Change.EnableReading, loop);
    }

    method EnableWriting(loop: Poller)
      requires this in loop.known
      modifies this`events_, this`index_, loop`channels_, loop.kernel
      ensures events_ == old(events_) + WRITE_EVENT
      ensures loop.Reg() == old(loop.Reg()).ChangeEvents(this, Change.EnableWriting)
    {
      Update(events_ + WRITE_EVENT, Change.EnableWriting, loop);
    }

    method DisableWriting(loop: Poller)
      requires this in loop.known
      modifies this`events_, this`index_, loop`channels_, loop.kernel
      ensures events_ == old(events_) - WRITE_EVENT
      ensures loop.Reg() == old(loop.Reg()).ChangeEvents(this, Change.DisableWriting)
    {
      Update(events_ - WRITE_EVENT, Change.DisableWriting, loop);
    }

    method DisableAll(loop: Poller)
      requires this in loop.known
      modifies this`events_, this`index_, loop`channels_, loop.kernel
      ensures events_ == {}
      ensures loop.Reg() == old(loop.Reg()).ChangeEvents(this, Change.DisableAll)
    {
      Update({}, Change.DisableAll, loop);
    }
  }

  /** The kernel's side: open fds and the epoll interest set. */
  class Kernel {
    var open: set<int>
    var interest: map<int, Interest<Channel>>
    var failures: nat

    constructor (fds: set<int>)
      ensures open == fds && interest == map[] && failures == 0
    {
      open, interest, failures := fds, map[], 0;
    }
  }

  class Poller {
    const kernel: Kernel
    var channels_: map<int, Channel>
    ghost var known: set<Channel>

    constructor (kernel: Kernel)
      ensures this.kernel == kernel && channels_ == map[] && known == {}
    {
      this.kernel := kernel;
      channels_ := map[];
      known := {};
    }

    ghost function Reg(): Registry<Channel>
      reads this, kernel, known
    {
      Registry(map c | c in known :: c.State(), channels_, kernel.open, kernel.interest, kernel.failures)
    }

    /** close(2) also drops the fd from the epoll set. */
    method Close(fd: int)
      modifies kernel
      ensures kernel.open == old(kernel.open) - {fd}
      ensures Reg() == old(Reg()).Close(fd)
    {
      kernel.open := kernel.open - {fd};
      kernel.interest := kernel.interest - {fd};
    }

    /** accept(2) has returned fd. */
    method Accepted(fd: int)
      modifies kernel
      ensures Reg() == old(Reg()).Accepted(fd)
    {
      if fd >= 0 {
        kernel.open := kernel.open + {fd};
      }
    }

    /** A new channel of this loop. */
    ghost method Register(channel: Channel)
      requires channel !in known && channel.State() == Chan(channel.fd_, {}, New)
      modifies this`known
      ensures known == old(known) + {channel}
      ensures Reg() == old(Reg()).Create(channel, channel.fd_)
    {
      known := known + {channel};
    }

    /** What the Socket constructor does with its new channel. */
    method Attach(channel: Channel)
      requires channel !in known && channel.State() == Chan(channel.fd_, {}, New)
      modifies this, kernel, channel`events_, channel`index_
      ensures known == old(known) + {channel} && channel.events_ == READ_EVENT
      ensures Reg() == old(Reg()).Create(channel, channel.fd_).ChangeEvents(channel, EnableReading)
    {
      Register(channel);
      channel.EnableReading(this);
    }

    /** Poller::update: epoll_ctl with the channel's events. */
    method Update(op: Ctl, channel: Channel)
      requires channel in known
      modifies kernel
      ensures kernel.open == old(kernel.open)
      ensures Reg() == old(Reg()).Control(op, channel)
    {
      var fd := channel.fd_;
      if fd !in kernel.open || (op == Add <==> fd in kernel.interest) {
        kernel.failures := kernel.failures + 1;
      } else if op == Del {
        kernel.interest := kernel.interest - {fd};
      } else {
        kernel.interest := kernel.interest[fd := Interest(channel.events_, channel)];
      }
    }

    method SetIndex(channel: Channel, index: Index)
      requires channel in known
      modifies channel`index_
      ensures Reg() == old(Reg()).SetIndex(channel, index)
    {
      channel.index_ := index;
    }

    method Enter(channel: Channel)
      modifies this`channels_
      ensures Reg() == old(Reg()).(channels := old(Reg()).channels[channel.fd_ := channel])
    {
      channels_ := channels_[channel.fd_ := channel];
    }

    method UpdateChannel(channel: Channel)
      requires channel in known
      modifies this`channels_, kernel, channel`index_
      ensures Reg() == old(Reg()).UpdateChannel(channel)
    {
      var index := channel.index_;
      if index == New || index == Deleted {
        if index == New {
          Enter(channel);
        }
        SetIndex(channel, Added);
        Update(Add, channel);
      } else if channel.events_ == {} {
        Update(Del, channel);
        SetIndex(channel, Deleted);
      } else {
        Update(Mod, channel);
      }
    }

    method RemoveChannel(channel: Channel)
      requires channel in known
      modifies this`channels_, kernel, channel`index_
      ensures kernel.open == old(kernel.open)
      ensures Reg() == old(Reg()).RemoveChannel(channel)
    {
      var index := channel.index_;
      channels_ := channels_ - {channel.fd_};
      if index == Added {
        Update(Del, channel);
      }
      SetIndex(channel, New);
    }

    /** fillActiveChannels: what epoll_wait wrote into events_ becomes the active list. */
    method FillActiveChannels(events: seq<Interest<Channel>>) returns (active: seq<Channel>)
      requires forall i :: 0 <= i < |events| ==> events[i].chan in known
      requires forall i, j :: 0 <= i < j < |events| ==> events[i].chan != events[j].chan
      modifies set i | 0 <= i < |events| :: events[i].chan
      ensures |active| == |events| && forall i :: 0 <= i < |events| ==> active[i] == events[i].chan
      ensures forall i :: 0 <= i < |events| ==> active[i].revents_ == events[i].mask
      ensures Reg() == old(Reg())
    {
      active := [];
      for i := 0 to |events|
        invariant |active| == i && forall k :: 0 <= k < i ==> active[k] == events[k].chan
        invariant forall k :: 0 <= k < i ==> events[k].chan.revents_ == events[k].mask
        invariant Reg() == old(Reg())
      {
        var channel := events[i].chan;
        channel.revents_ := events[i].mask;
        active := active + [channel];
        assert Reg().chans == old(Reg()).chans;
      }
    }
  }
}
