# Proofs about netlib, a locked work queue and a CAS queue

A Dafny model of the four parts of the repository that are more than API demonstrations, and
proofs about all their runs.

* **The byte buffer** of `netlib`: a vector with a reader and a writer index that compacts in
  place, grows, keeps eight bytes free in front and receives by a scatter read. `ByteQueue.dfy`
  says what each operation does to the readable bytes, the reader index and the vector size;
  `Buffer.dfy` holds the class in its imperative form, each method proved equal to those
  functions. On top of it: the integer codec (`Codec.dfy`), typed values from one buffer to
  another (`Transfer.dfy`), CRLF lines (`Lines.dfy`), length-prefixed frames (`Framing.dfy`).
* **The threads** of `pthread_create.c`: the work queue (`WorkQueue.dfy`, `WorkQueueRuns.dfy`,
  `WorkQueueDelivery.dfy`; its two critical sections on the heap in `MessageList.dfy`) and the
  reference count (`RefCount.dfy`).
* **The CAS queue** sketched in `c++/f` (`CasQueue.dfy`, `CasQueueRuns.dfy`,
  `CasQueueReturns.dfy`, `CasQueueValues.dfy`).
* **The reactor** of `netlib`: channel registration (`Registration.dfy`), the life of
  connections (`Lifecycle.dfy`) and what it must come to (`ServerLedger.dfy`), the sending and receiving sides of a socket (`Output.dfy`,
  `Input.dfy`), `split` (`Split.dfy`); `Reactor.dfy` and `NetServer.dfy` hold the classes
  Channel, Poller, Socket and TcpServer in their imperative form, proved equal to those
  functions.

Two ways of modelling are used. An object that is updated in place is a class; each method's
contract gives the whole new state as a function of the old one, and the results about runs are
lemmas about these functions. A concurrent protocol is a step relation: a state holds shared
memory and, for every thread, the statement it executes next; one step is one statement (one
shared read or one compare-and-swap) of one thread; a run is any interleaving. The state also
records history (order of changes, where a node is) that no statement reads. So that a history
cannot hide what a statement failed to do, each main result counts from the steps of the run:
the calls made, the bytes handed in, the connections accepted. Byte orders, short
reads and writes, errno values, the fds the kernel hands out, which threads a signal wakes and
spurious wakeups are chosen freely.

`dafny verify dfyconfig.toml` checks everything.

## Where the code and its promises differ

* The vector never exceeds 2 h + 6 bytes once the peak demand h of `ensureWritableBytes` passes
  1024, and stays at 1032 up to there; both are exact (`SpaceBound`, `SpaceBoundAttained`).
* The reserve in front is not refilled by every operation: room for k > 0 more bytes is
  guaranteed after all runs with p prepended bytes if and only if p + k is at most 8 (`RoomInFrontIff`).
* `Send` writes directly even while older bytes wait in the output buffer. Data of one Send
  stays in order always; the Sends as a whole are in call order if and only if none wrote to
  the socket while the buffer was not empty (`TotalOrderIff`).
* A second `disableAll` registers the channel again, with an empty mask (`DisableAllToggles`).
* `handleClose` closes the fd first, so the `EPOLL_CTL_DEL` that follows always fails; these are
  the only `epoll_ctl` calls that ever fail (`BooksAgree`).
* `accept` goes on after a failed accept(2): the books are kept if and only if it succeeded
  (`AcceptKeepsInvIff`). A Send that blocks keeps them if and only if its connection is still
  open (`BlockedSendIff`).
* The CAS dequeue has no test for emptiness. Linearizability and structure hold of every run,
  also when it drains the queue (`Linearizable`, `StructureKept`); but head survives if and only
  if no CAS swings it to nil (`HeadKeptIff`). After that CAS head is nil for good, nothing more
  is dequeued and whoever reads head faults (`HeadLostForGood`, `DrainingLosesTheQueue`).
* `split` drops an empty last piece, as `std::getline` does, so it inverts joining exactly for
  delimiter-free lists without one (`SplitInvertsJoin`); `bind` therefore also accepts `host:port:`.

## Model

| member | source | states |
|---|---|---|
| `ByteQueue.View.MakeSpace` | netlib/Buffer.hpp:312-331 | making space, by overlapping copy or growth, leaves the content alone, finds the room asked for and never shrinks the vector |
| `ByteQueue.View.EnsureWritable` | netlib/Buffer.hpp:157-164 | afterwards len bytes are writable, the content is the same and the vector no smaller |
| `ByteQueue.View.Append` | netlib/Buffer.hpp:145-150 | append concatenates |
| `ByteQueue.View.Retrieve` | netlib/Buffer.hpp:81-92 | retrieve drops a prefix; the reader moves by it, or, if all is retrieved, both indices are 8 and all but the reserve is writable |
| `ByteQueue.View.Offered` | netlib/Buffer.cpp:16-24 | readFd offers at most 131071 bytes with the side buffer, the free part of the vector without |
| `ByteQueue.View.Receive` | netlib/Buffer.cpp:25-43 | readFd appends exactly the bytes delivered, in place or through the side buffer |
| `ByteQueue.RunRefinesQueue` | netlib/Buffer.hpp:78-182 | every run of operations whose asserts hold does to the content what the same run does to a plain byte sequence, and the vector never shrinks |
| `ByteQueue.CompactionMovesDown` | netlib/Buffer.hpp:312-331 | compaction is chosen exactly when content, demand and reserve fit the vector, and then moves the reader from beyond 8 to 8; growth is exact and moves nothing |
| `ByteQueue.ReceiveIsAppend` | netlib/Buffer.cpp:11-43 | reading through the side buffer leaves content, indices and vector as one append of all the bytes would |
| `ByteQueue.EmptiedIsFresh` | netlib/Buffer.hpp:81-120 | whenever a run ends in a retrieve that empties the buffer, both indices are 8 |
| `ByteQueue.StepSpace` | netlib/Buffer.hpp:157-164 | an operation grows the vector only if its demand and the reserve do not fit, and then to at most twice the demand plus 6 |
| `ByteQueue.RunSpace` | netlib/Buffer.hpp:157-164 | a whole run leaves the vector's size alone if the peak demand and the reserve fit, and never passes the larger of that size and twice the peak plus 6 |
| `ByteQueue.SpaceBound` | netlib/Buffer.hpp:18-26 | over every run from a new buffer: 1032 bytes up to peak demand 1024, at most 2 h + 6 beyond |
| `ByteQueue.SpaceBoundAttained` | netlib/Buffer.hpp:312-331 | for every peak demand beyond 1024 some run reaches the bound |
| `ByteQueue.ReserveLeft` | netlib/Buffer.hpp:276-282 | over every run, the bytes free in front plus those prepended are at least 8 (or the initial amount): nothing but prepend uses the reserve |
| `NetBuffer.Search` | netlib/Buffer.hpp:50-62 | std::search finds the first CRLF at or after the start, or the end |
| `NetBuffer.CopyDown` | netlib/Buffer.hpp:324-326 | the forward copy is right although source and target overlap |
| `NetBuffer.CopyIn` | netlib/Buffer.hpp:148-148 | copying into the vector changes exactly the target range |
| `NetBuffer.Buffer.constructor` | netlib/Buffer.hpp:18-26 | a new buffer is empty with 8 bytes in front and 1024 behind |
| `NetBuffer.Buffer.FindCRLF` | netlib/Buffer.hpp:56-62 | the loop returns the first CRLF of the readable bytes at or after start, NULL if there is none |
| `NetBuffer.Buffer.Retrieve` | netlib/Buffer.hpp:81-92 | the indices after retrieve are those of View.Retrieve |
| `NetBuffer.Buffer.RetrieveUntil` | netlib/Buffer.hpp:94-99 | retrieves the bytes before the given position |
| `NetBuffer.Buffer.RetrieveAll` | netlib/Buffer.hpp:116-120 | both indices are 8, the vector is the same |
| `NetBuffer.Buffer.RetrieveAsString` | netlib/Buffer.hpp:127-133 | returns the prefix it retrieves |
| `NetBuffer.Buffer.Unwrite` | netlib/Buffer.hpp:178-182 | drops a suffix |
| `NetBuffer.Buffer.EnsureWritableBytes` | netlib/Buffer.hpp:157-164 | in place or in a new vector, the view is View.EnsureWritable's |
| `NetBuffer.Buffer.MakeSpace` | netlib/Buffer.hpp:312-331 | makeSpace leaves the view of View.MakeSpace, whichever branch it takes; its internal asserts are proved |
| `NetBuffer.Buffer.Resize` | netlib/Buffer.hpp:317-317 | the old elements move to a new block, the rest is zero |
| `NetBuffer.Buffer.HasWritten` | netlib/Buffer.hpp:172-176 | what was stored behind the writer becomes readable |
| `NetBuffer.Buffer.Append` | netlib/Buffer.hpp:145-150 | refines View.Append |
| `NetBuffer.Buffer.Prepend` | netlib/Buffer.hpp:276-282 | refines View.Prepend |
| `NetBuffer.Buffer.ReadV` | netlib/Buffer.cpp:14-24 | readv fills the free part first, then the side buffer, in stream order |
| `NetBuffer.Buffer.ReadFd` | netlib/Buffer.cpp:11-43 | refines View.Receive; on error nothing changes and errno is saved |
| `NetBuffer.Buffer.AppendInt` | netlib/Buffer.hpp:187-202 | appends the network-order encoding of the value |
| `NetBuffer.Buffer.PrependInt` | netlib/Buffer.hpp:259-274 | prepends it |
| `NetBuffer.Buffer.ReadInt` | netlib/Buffer.hpp:208-254 | returns the value decoded from the first bytes and retrieves them |
| `Codec.DigitsOfValue` | netlib/Buffer.hpp:233-239 | every byte string is the digits of its value |
| `Codec.ValueOfDigits` | netlib/Buffer.hpp:187-191 | the digits of a number that fits give the number back |
| `Codec.StoredInNetworkOrder` | netlib/Buffer.hpp:189-190 | storing htonl(x) puts the most significant byte first on either kind of host |
| `Codec.LoadedFromNetworkOrder` | netlib/Buffer.hpp:236-238 | ntohl of what memcpy loads reads the most significant byte first on either kind of host |
| `Codec.EncodesInNetworkOrder` | netlib/Buffer.hpp:187-202 | appendInt8/16/32 write the two's complement digits, most significant first |
| `Codec.DecodesFromNetworkOrder` | netlib/Buffer.hpp:233-254 | peekInt8/16/32 read two's complement digits, most significant first, on either kind of host |
| `Codec.WireBytes` | netlib/Buffer.hpp:187-202 | the ranges of int8_t, int16_t and int32_t, and each byte on the wire in plain numbers |
| `Codec.HostBytes` | netlib/Buffer.hpp:187-190 | the bytes of a 4-byte object in the memory of either kind of host |
| `Codec.RoundTrip` | netlib/Buffer.hpp:184-254 | a value written on one host and read on any other is unchanged |
| `Codec.DecodeThenEncode` | netlib/Buffer.hpp:184-254 | reading and writing again gives the same bytes: decoding loses nothing |
| `Transfer.StepPush` | netlib/Buffer.hpp:187-202 | pushing a value keeps: bytes in flight are the encodings of the values not yet read |
| `Transfer.WrittenInFlight` | netlib/Socket.cpp:27-29 | a short write and its retrieve keep the bytes in flight |
| `Transfer.ReceivedInFlight` | netlib/Buffer.cpp:11-43 | a read of any chunk, spilling or not, keeps the bytes in flight |
| `Transfer.StepRead` | netlib/Buffer.hpp:208-227 | the matching readInt returns the next pushed value |
| `Transfer.RunKeepsInv` | netlib/Socket.cpp:26-42 | in every interleaving the values read are the first ones pushed and the bytes in flight encode the others, in order |
| `Transfer.EndToEnd` | netlib/Buffer.hpp:187-254 | at every moment of every run the values read are the first of the values the push steps give, one for each read; when only pushing is left, they are all of them and no byte is left over |
| `Transfer.BytesAccounted` | netlib/Socket.cpp:26-42 | the bytes in both buffers and on the wire are those pushed, written, received and read by the steps |
| `Transfer.DrainingEnds` | netlib/Socket.cpp:26-42 | draining takes at most three steps per byte |
| `Lines.SplitCharacterised` | netlib/Buffer.hpp:50-54 | splitting at the first CRLF again and again gives the one decomposition into CRLF-free lines and rest |
| `Lines.StepKeepsInv` | netlib/Buffer.hpp:94-133 | taking a line, or a chunk ending anywhere, keeps lines plus buffer equal to the stream |
| `Lines.ChunkIndependent` | netlib/Buffer.hpp:50-62 | whatever the chunks and the interleaving, the lines taken, one for each taking, and the lines buffered are those of all the bytes that arrived |
| `Framing.FrameRoundTrip` | netlib/Buffer.hpp:256-282 | after any run with at most four prepended bytes a 4-byte length can be prepended; the receiver reads the length and the body back |
| `Framing.RoomInFrontIff` | netlib/Buffer.hpp:276-282 | k > 0 more bytes fit in front after every run with p prepended bytes iff p + k is at most 8 |
| `Split.GetLine` | netlib/TcpServer.cpp:17-17 | std::getline: up to the delimiter, which is consumed, or up to the end |
| `Split.Split` | netlib/TcpServer.cpp:14-20 | the loop appends exactly the pieces |
| `Split.JoinOfPieces` | netlib/TcpServer.cpp:14-20 | no piece has the delimiter; joined they are the input less one trailing delimiter |
| `Split.PiecesOfJoin` | netlib/TcpServer.cpp:14-20 | splitting a join gives the pieces, without an empty last one |
| `Split.SplitInvertsJoin` | netlib/TcpServer.cpp:14-20 | splitting a join gives back the list iff no piece has the delimiter and the last one is not empty |
| `Split.TwoPieces` | netlib/TcpServer.cpp:50-56 | exactly which host strings bind accepts |
| `WorkQueue.NoFault` | net/pthread/pthread_create.c:13-39 | no statement touches memory that is not live |
| `WorkQueue.KeepsExclusive` | net/pthread/pthread_create.c:19-24 | mutual exclusion, also across pthread_cond_wait |
| `WorkQueue.LinkKeepsShape` | net/pthread/pthread_create.c:35-35 | linking the new node keeps the list |
| `WorkQueue.PublishKeepsShape` | net/pthread/pthread_create.c:36-36 | publishing it keeps a NULL-terminated list |
| `WorkQueue.AdvanceKeepsShape` | net/pthread/pthread_create.c:22-23 | the node taken is the top of the list, and the rest stays a list |
| `WorkQueue.FreeKeepsShape` | net/pthread/pthread_create.c:26-26 | freeing a node does not touch the list |
| `WorkQueue.PublishKeepsOwned` | net/pthread/pthread_create.c:36-36 | a published node goes from its thread to the list |
| `WorkQueue.AdvanceKeepsOwned` | net/pthread/pthread_create.c:23-23 | a popped node goes from the list to one thread |
| `WorkQueue.FreeKeepsOwned` | net/pthread/pthread_create.c:26-26 | a freed node is in no place any more |
| `WorkQueue.KeepsStructure` | net/pthread/pthread_create.c:13-39 | every step keeps exclusion, list shape and one place per live node |
| `WorkQueueRuns.StepPays` | net/pthread/pthread_create.c:18-24 | a step that lengthens the list leaves a signal due, a consumer that sleeps has seen it empty |
| `WorkQueueRuns.SignalKeepsWakeup` | net/pthread/pthread_create.c:38-38 | a signal passes its message on to a consumer it wakes |
| `WorkQueueRuns.KeepsMessages` | net/pthread/pthread_create.c:13-39 | every step keeps: each message printed once or in exactly one live node |
| `WorkQueueRuns.KeepsLIFO` | net/pthread/pthread_create.c:22-36 | every step keeps: the list is the stack of the changes in lock order |
| `MessageList.WorkList.Enqueue` | net/pthread/pthread_create.c:35-36 | on the heap: the new node is workq and its m_next the old list |
| `MessageList.WorkList.Take` | net/pthread/pthread_create.c:22-23 | on the heap: the node taken is the one put last, the others stay linked |
| `WorkQueueDelivery.MemorySafe` | net/pthread/pthread_create.c:13-39 | in every reachable state: NULL-terminated list without repetition, no node in two hands, nothing used after free or freed twice |
| `WorkQueueDelivery.EachMessageOnce` | net/pthread/pthread_create.c:13-39 | each message of a call is printed once or carried by one live node, each live node is on the list or in a thread's hands, and the list is the stack of the changes in lock order |
| `WorkQueueDelivery.NoMessageForgotten` | net/pthread/pthread_create.c:18-38 | while a consumer sleeps the list is no longer than the signals due plus the consumers awake; if all sleep and no signal is due, workq is NULL |
| `WorkQueueDelivery.StepWorks` | net/pthread/pthread_create.c:18-38 | every step without a new call or a spurious wakeup uses up work |
| `WorkQueueDelivery.RunsAreFinite` | net/pthread/pthread_create.c:18-38 | a run without new calls and spurious wakeups has at most Work(s) steps, for any schedule |
| `WorkQueueDelivery.EverythingProcessed` | net/pthread/pthread_create.c:13-39 | a run that cannot go on has printed the message of every call exactly once, emptied the queue and freed every node |
| `WorkQueueDelivery.SignalWakesOnly` | net/pthread/pthread_create.c:38-38 | a signal wakes the threads it was chosen to wake and no other |
| `RefCount.CountsReferences` | net/pthread/pthread_create.c:66-85 | f_count moves with the references outstanding |
| `RefCount.LastIsAlone` | net/pthread/pthread_create.c:78-78 | when the count reaches 0 every other thread is outside and holds nothing |
| `RefCount.KeepsAlone` | net/pthread/pthread_create.c:78-81 | from the last release until the object is freed, no other thread is in a call |
| `RefCount.KeepsInv` | net/pthread/pthread_create.c:51-85 | every statement keeps exclusion, count and lifetime |
| `RefCount.SafeAndExact` | net/pthread/pthread_create.c:51-85 | over every run: f_count equals the references outstanding, no use after free or destroy, destroyed and freed once, and exactly if no reference is left |
| `RefCount.CallsCount` | net/pthread/pthread_create.c:66-85 | over every run: f_count is 1 plus the increments less the decrements executed, and 1 plus the foo_hold less the foo_rele calls but for those that have not counted yet; a thread between calls holds what its calls and the references handed over make |
| `RefCount.NoDeadlock` | net/pthread/pthread_create.c:66-85 | while a call is in progress some thread can go on |
| `CasQueue.LinkSucceeds` | c++/f:5-7 | the CAS on next succeeds exactly if p is tail and no enqueuer is between its CASes |
| `CasQueue.LinkKeepsInv` | c++/f:7-7 | linking extends the chain by one node |
| `CasQueue.SwingKeepsInv` | c++/f:8-8 | the CAS that swings tail never fails |
| `CasQueue.FaultsIff` | c++/f:15-18 | a thread faults exactly if it read nil from head and reads its next field |
| `CasQueue.TakeKeepsInv` | c++/f:15-17 | a successful CAS on head takes the front node, also if it leaves nil |
| `CasQueue.KeepsInv` | c++/f:1-18 | every step keeps the structure; head stays a node iff it was one and the step is not the CAS to nil |
| `CasQueueRuns.StepIsFifo` | c++/f:1-18 | each step, also the CAS to nil, is a step of a plain queue, or none |
| `CasQueueRuns.Linearizable` | c++/f:1-18 | linearizability of every run: in the order of their CASes the operations are a run of a first-in first-out queue starting with the initial node's value; no node is dequeued twice |
| `CasQueueRuns.StructureKept` | c++/f:1-8 | in every run: one nil-terminated chain; tail last or last but one, the latter exactly between two CASes; every saved p at or before tail; the threads about to fault are those that read nil from head |
| `CasQueueRuns.HeadKeptIff` | c++/f:15-17 | over every run: head is a node iff no CAS swung it to nil; then it is the oldest node, the queue is not empty and no thread faults |
| `CasQueueRuns.HeadLostForGood` | c++/f:15-17 | once head is nil, in every continuation: it stays nil, nothing is dequeued, what is enqueued stays, and a dequeue that read nil never goes on |
| `CasQueueRuns.StuckStays` | c++/f:16-17 | in one step with head nil: who reads head comes before the next field of nil, and who is there stays |
| `CasQueueRuns.DrainingLosesTheQueue` | c++/f:15-18 | such a run: a value enqueued after the queue was drained is linked but unreachable, and nil is dereferenced |
| `CasQueueReturns.ReturnsLinearizedValues` | c++/f:15-18 | over every run: the k-th dequeue's value of the linearization is the one its thread returns or is about to return, and nothing else is returned |
| `CasQueueValues.ValuesComeFromCalls` | c++/f:1-18 | over every run: the node of each enqueue call holds its argument for good; the k-th enqueue of the linearization has the argument of the call that allocated the k-th node linked; a value returned is the initial one or the argument of a call |
| `CasQueueValues.EnqueueAlone` | c++/f:1-8 | an enqueue that runs alone links its node behind the last and moves tail to it |
| `CasQueueValues.DequeueAlone` | c++/f:15-18 | a dequeue that runs alone takes the node at head, returns its value and moves head to its next field |
| `CasQueueValues.FinishesAlone` | c++/f:5-18 | obstruction freedom: from any reachable point of a call, with nothing in its way, it finishes in at most six statements |
| `Registration.ChangeKeepsAgreement` | netlib/Channel.hpp:33-36 | enabling, disabling and updating keep index, channels_ and interest set in agreement, and no epoll_ctl fails |
| `Registration.RemoveKeepsAgreement` | netlib/Poller.cpp:93-108 | removing a channel keeps the agreement, and its deletion does not fail while the fd is open |
| `Registration.DisableAllToggles` | netlib/Poller.cpp:61-91 | after disableAll the fd is registered exactly if it was not before |
| `Registration.RegistrationAgrees` | netlib/Poller.cpp:61-121 | over every run on channels with different open fds: the events wanted, membership in channels_ and in the interest set, and the mask there are those the channel's own operations ask for; no epoll_ctl fails |
| `Lifecycle.NewSocketAgrees` | netlib/Socket.cpp:87-101 | a new socket's channel is added with its read events |
| `Lifecycle.AcceptKeepsInvIff` | netlib/TcpServer.cpp:85-123 | accepting keeps the books iff accept(2) succeeded; the insert never meets an old entry although fds are reused |
| `Lifecycle.BlockedSendIff` | netlib/Socket.cpp:44-57 | a Send that blocks keeps the books iff its connection is open |
| `Lifecycle.CloseDisagrees` | netlib/Socket.cpp:62-63 | between close and remove the books do not agree |
| `Lifecycle.CloseKeepsInv` | netlib/Socket.cpp:60-65 | at the end of handleClose the books agree again, no other connection is affected, and exactly one epoll_ctl has failed |
| `Lifecycle.CloseFollows` | netlib/TcpServer.cpp:76-80 | the same with any Sends by the application's close callback: the connection's fd is closed, every other open connection stays open |
| `Lifecycle.ConnectionKeepsInv` | netlib/Channel.cpp:35-57 | any combination of ready events on a connection, with any Sends by its callbacks, keeps the books, touches no other connection, and closes at most once |
| `ServerLedger.AcceptorAccepts` | netlib/TcpServer.cpp:82-125 | a readable acceptor accepts one connection under the fd of accept(2), which is new in connections_; otherwise nothing changes; it quits exactly on a hang-up |
| `ServerLedger.BlockRecorded` | netlib/Socket.cpp:51-55 | Sends that block make exactly the open connections among them want to write |
| `ServerLedger.ConnectionRecorded` | netlib/Channel.cpp:35-57 | a connection is closed exactly by a hang-up or the end of its stream, and stops wanting to write exactly when its buffer was emptied |
| `ServerLedger.BooksAreTheLedgers` | netlib/EventLoop.cpp:22-41 | over every run of the loop: connections_ is exactly the connections accepted and not closed, each under its fd; the kernel watches each for reading, and for writing exactly after a blocked Send until its buffer is emptied; open fds, close callbacks and quit are those of the events |
| `Lifecycle.AcceptorKeepsInv` | netlib/TcpServer.cpp:82-125 | any combination of ready events on the acceptor keeps the books and every open connection |
| `Lifecycle.DispatchKeepsInv` | netlib/Channel.cpp:35-57 | handling one ready channel closes at most that one |
| `Lifecycle.BatchKeepsInv` | netlib/EventLoop.cpp:32-36 | a whole batch keeps the books: the channels later in it are still registered when their turn comes |
| `Lifecycle.BooksAgree` | netlib/EventLoop.cpp:22-41 | over every run of the loop, with Sends by callbacks and pending functors: connections_ and the acceptor are exactly what Poller and kernel have registered; close callbacks run at most once |
| `Output.SendReturns` | netlib/Socket.cpp:44-57 | Send returns 0 exactly if the write did not fail, and then every byte is on the wire or queued; otherwise errno, and no byte is anywhere |
| `Output.StepKeepsOrder` | netlib/Socket.cpp:26-57 | every Send and handleWrite keeps each accepted Send complete and in order |
| `Output.FlushKeepsStream` | netlib/Socket.cpp:26-42 | handleWrite moves bytes from the buffer to the wire and nothing else |
| `Output.OutputConserved` | netlib/Socket.cpp:26-57 | in every run the wire and the buffer hold the data of every Send whose write did not fail once and in order, and nothing else; the wire has as many bytes as the writes took; EPOLLOUT is wanted from a blocked Send until the buffer is emptied |
| `Output.TotalOrderIff` | netlib/Socket.cpp:44-57 | the Sends are in call order iff none wrote while the buffer was not empty |
| `Output.TagsOnlyLabel` | netlib/Socket.cpp:26-57 | the tags used to say so do not influence the run |
| `Input.InputConserved` | netlib/Socket.cpp:7-25 | bytes taken, as many as asked for, plus bytes buffered are the bytes that arrived, in order |
| `Input.ReadBound` | netlib/Buffer.cpp:16-43 | the bound on one read, and when it stays in place |
| `Reactor.Channel.EnableReading` | netlib/Channel.hpp:33-33 | adds the read events; index, channels_ and epoll set become those of Registry.ChangeEvents |
| `Reactor.Channel.EnableWriting` | netlib/Channel.hpp:34-34 | adds the write event; index, channels_ and epoll set become those of Registry.ChangeEvents |
| `Reactor.Channel.DisableWriting` | netlib/Channel.hpp:35-35 | drops the write event; index, channels_ and epoll set become those of Registry.ChangeEvents |
| `Reactor.Channel.DisableAll` | netlib/Channel.hpp:36-36 | drops all events; index, channels_ and epoll set become those of Registry.ChangeEvents |
| `Reactor.Poller.Update` | netlib/Poller.cpp:110-121 | epoll_ctl's effect, and when it fails |
| `Reactor.Poller.UpdateChannel` | netlib/Poller.cpp:61-91 | refines Registry.UpdateChannel |
| `Reactor.Poller.RemoveChannel` | netlib/Poller.cpp:93-108 | refines Registry.RemoveChannel |
| `Reactor.Poller.FillActiveChannels` | netlib/Poller.cpp:51-59 | the active list is what epoll_wait reported, each channel with its events |
| `NetServer.Socket.constructor` | netlib/Socket.cpp:87-101 | empty buffers, and the registration of Lifecycle.NewSocket |
| `NetServer.Socket.Send` | netlib/Socket.cpp:44-57 | returns 0 iff the write did not fail and then counts the data as accepted, errno otherwise with wire and buffer unchanged; refines Output.Send; asks for writing exactly on EAGAIN |
| `NetServer.Socket.HandleWrite` | netlib/Socket.cpp:26-42 | refines Output.HandleWrite; stops asking exactly when the buffer ran empty |
| `NetServer.Socket.HandleClose` | netlib/Socket.cpp:60-65 | refines Lifecycle.HandleClose |
| `NetServer.TcpServer.constructor` | netlib/TcpServer.cpp:25-31 | the server as start leaves it before the loop |
| `NetServer.TcpServer.Accept` | netlib/TcpServer.cpp:116-123 | refines Lifecycle.Accept |
| `NetServer.TcpServer.HandleAcceptor` | netlib/Channel.cpp:35-57 | a readable acceptor makes a connection; refines Lifecycle.HandleAcceptor |
| `NetServer.TcpServer.Insert` | netlib/TcpServer.cpp:121-121 | std::map::insert does not overwrite |
| `NetServer.TcpServer.ConnectionClose` | netlib/TcpServer.cpp:76-80 | removes the connection's entry and counts its close callback |
| `NetServer.TcpServer.HandleConnection` | netlib/Channel.cpp:35-57 | close, read and write in this order, as Lifecycle.HandleConnection; both buffers and the wire afterwards, also when the fd was closed on the way |
| `NetServer.TcpServer.HandleRead` | netlib/Socket.cpp:7-25 | refines View.Receive and Lifecycle.HandleRead |
| `NetServer.TcpServer.HandleWrite` | netlib/Socket.cpp:26-42 | refines Output.HandleWrite and Lifecycle.HandleWrite |

## Left out

- Integer widths of sizes and counters: `size_t`, `int` lengths and `f_count` are unbounded here; only the codec has widths.
- Aliasing of `append` and `prepend` with the buffer's own vector: data is a value, as the callers in netlib pass it.
- `swap`, `internalCapacity`, `findEOL()` and the plain accessors of Buffer: easy. `findEOL(start)` scans past the writer, so it has no contract worth stating.
- The concurrent protocols are step relations on values: memory is a map from addresses to nodes, so update in place and reuse of addresses are captured; reordering by compiler or hardware is not, the locks and CASes are taken as sequentially consistent.
- Failing `pthread_mutex_init` and `malloc`: the reference-counted object starts where foo_alloc has succeeded, and the queue's callers have a node.
- The unsynchronised dequeue at the top of the CAS sketch, and freeing its nodes: the sketch never frees. The runs may contain dequeues that leave when they read a nil next field, which the sketch does not have; nothing depends on them.
- Lifecycle.BooksAgree: its runs, also in ServerLedger, contain only successful accepts, and Sends on connections not yet closed; AcceptKeepsInvIff and BlockedSendIff say what happens otherwise. The abort by LOG(FATAL) on an unexpected errno is not modelled.
- NetServer.TcpServer.HandleConnection: the application's callbacks are not run inside it; Lifecycle lets the message, connection and close callbacks make any Sends that block.
- NetServer.TcpServer.HandleRead: the message callback is not run after a positive read; the same holds.
- NetServer.TcpServer.Accept: the connection callback is not run; the same holds.
- Object lifetime: objects are garbage collected here. In the source the last owner of a Socket can go while its Channel is still handling events.
- `EventLoop::loop` as an imperative loop, and `runInLoop`: the loop is Lifecycle.Loop. Write-complete callbacks, which an application can set on a Socket and which run again in every later turn, appear as the Sends that follow each batch; the list of pending functors itself is not a field.
- Growth of the Poller's event vector, the log, the clock, addresses, `bind` and `listen` themselves, `getsockopt` in handleError.
- Eventual flushing of the output buffer: after a partial Send nothing asks for EPOLLOUT, so it is not promised.
- The other programs of the repository (udp, unixdomain, pipe, fork, daemon, signals, message queues, semaphores, taxi, net/myser2, the language demos).
