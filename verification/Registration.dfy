/** Channels, the Poller's books and the kernel's epoll set. A channel's index, the channels_
    map and the kernel's interest set record the same thing three times; the functions below
    are what Channel and Poller do to them, the lemmas that they agree over every run. K
    stands for the address of a Channel. */
module Registration {
  datatype Flag = In | Pri | Out | Err | Hup | Rdhup

  const READ_EVENT: set<Flag> := {In, Pri}
  const WRITE_EVENT: set<Flag> := {Out}

  /** kNew, kAdded, kDeleted. */
  datatype Index = New | Added | Deleted

  datatype Chan = Chan(fd: int, events: set<Flag>, index: Index)

  datatype Interest<K> = Interest(mask: set<Flag>, chan: K)

  datatype Ctl = Add | Mod | Del

  datatype Change = EnableReading | EnableWriting | DisableWriting | DisableAll | Refresh

  /** failures counts the epoll_ctl calls that returned an error. */
  datatype Registry<!K(==)> = Registry(
    chans: map<K, Chan>,
    channels: map<int, K>,
    open: set<int>,
    interest: map<int, Interest<K>>,
    failures: nat)
  {
    /** Poller::update, and what epoll_ctl makes of it: EBADF for a closed fd, EEXIST for adding
        a present one, ENOENT for changing or deleting an absent one. */
    function Control(op: Ctl, k: K): Registry<K>
      requires k in chans
    {
      var c := chans[k];
      if c.fd !in open || (op == Add <==> c.fd in interest) then this.(failures := failures + 1)
      else if op == Del then this.(interest := interest - {c.fd})
      else this.(interest := interest[c.fd := Interest(c.events, k)])
    }

    function SetIndex(k: K, index: Index): (r: Registry<K>)
      requires k in chans
      ensures r.chans.Keys == chans.Keys
    {
      this.(chans := chans[k := chans[k].(index := index)])
    }

    function UpdateChannel(k: K): Registry<K>
      requires k in chans
    {
      var c := chans[k];
      if c.index == New then
        this.(channels := channels[c.fd := k]).SetIndex(k, Added).Control(Add, k)
      else if c.index == Deleted then
        SetIndex(k, Added).Control(Add, k)
      else if c.events == {} then
        Control(Del, k).SetIndex(k, Deleted)
      else
        Control(Mod, k)
    }

    function RemoveChannel(k: K): Registry<K>
      requires k in chans
    {
      var c := chans[k];
      var erased := this.(channels := channels - {c.fd});
      var deleted := if c.index == Added then erased.Control(Del, k) else erased;
      deleted.SetIndex(k, New)
    }

    /** The setters of Channel: change the wanted events, then updateChannel. */
    function Wanted(change: Change, events: set<Flag>): set<Flag> {
      match change
      case EnableReading => events + READ_EVENT
      case EnableWriting => events + WRITE_EVENT
      case DisableWriting => events - WRITE_EVENT
      case DisableAll => {}
      case Refresh => events
    }

    function ChangeEvents(k: K, change: Change): Registry<K>
      requires k in chans
    {
      SetEvents(k, Wanted(change, chans[k].events)).UpdateChannel(k)
    }

    function SetEvents(k: K, events: set<Flag>): (r: Registry<K>)
      requires k in chans
      ensures r.chans.Keys == chans.Keys
    {
      this.(chans := chans[k := chans[k].(events := events)])
    }

    /** A new channel. */
    function Create(k: K, fd: int): (r: Registry<K>)
      ensures r.chans.Keys == chans.Keys + {k}
    {
      this.(chans := chans[k := Chan(fd, {}, New)])
    }

    /** The kernel hands out fd, by socket(2) or accept(2). */
    function Open(fd: int): Registry<K> {
      this.(open := open + {fd})
    }

    /** accept(2) opens fd, or fails and returns a negative one. */
    function Accepted(fd: int): Registry<K> {
      if fd < 0 then this else Open(fd)
    }

    /** close(2): the kernel also drops the fd from the epoll set. */
    function Close(fd: int): Registry<K> {
      this.(open := open - {fd}, interest := interest - {fd})
    }
  }

  // ------------------------------------------------------------- agreement

  predicate ChanAgrees<K>(r: Registry<K>, k: K)
    requires k in r.chans
  {
    var c := r.chans[k];
    && (c.index != New ==> c.fd in r.open && c.fd in r.channels && r.channels[c.fd] == k)
    && (c.index == Added ==> c.fd in r.interest && r.interest[c.fd] == Interest(c.events, k))
  }

  predicate FdAgrees<K>(r: Registry<K>, fd: int) {
    && (fd in r.channels ==>
          var k := r.channels[fd];
          k in r.chans && r.chans[k].fd == fd && r.chans[k].index != New)
    && (fd in r.interest ==>
          var k := r.interest[fd].chan;
          k in r.chans && r.chans[k].fd == fd && r.chans[k].index == Added)
  }

  /** Index, channels_ and interest set say the same about every channel and every fd. */
  ghost predicate Agrees<K>(r: Registry<K>) {
    && (forall k :: k in r.chans ==> ChanAgrees(r, k))
    && (forall fd :: FdAgrees(r, fd))
  }

  /** The channel owns its fd: it is open, and no other channel is registered under it. */
  ghost predicate Owner<K>(r: Registry<K>, k: K) {
    && k in r.chans && r.chans[k].fd in r.open
    && forall j :: j in r.chans && j != k && r.chans[j].fd == r.chans[k].fd ==> r.chans[j].index == New
  }

  /** What a change leaves alone. */
  ghost predicate Rest<K>(r: Registry<K>, r': Registry<K>, k: K)
    requires k in r.chans
  {
    && r'.chans.Keys == r.chans.Keys && r'.open == r.open
    && r'.chans[k].fd == r.chans[k].fd
    && (forall j :: j in r.chans && j != k ==> r'.chans[j] == r.chans[j])
    && (forall fd :: fd != r.chans[k].fd ==>
          (fd in r'.channels <==> fd in r.channels) && (fd in r'.interest <==> fd in r.interest)
          && (fd in r.channels ==> r'.channels[fd] == r.channels[fd])
          && (fd in r.interest ==> r'.interest[fd] == r.interest[fd]))
  }

  lemma ChangeRest<K>(r: Registry<K>, k: K, change: Change)
    requires k in r.chans
    ensures Rest(r, r.ChangeEvents(k, change), k)
  {
  }

  lemma RemoveRest<K>(r: Registry<K>, k: K)
    requires k in r.chans
    ensures Rest(r, r.RemoveChannel(k), k)
  {
  }

  /** If the channel and its fd agree after a change, and nothing else changed, all agrees. */
  lemma AgreesLocally<K>(r: Registry<K>, r': Registry<K>, k: K)
    requires Agrees(r) && Owner(r, k) && Rest(r, r', k)
    requires ChanAgrees(r', k) && FdAgrees(r', r.chans[k].fd)
    ensures Agrees(r')
  {
    forall j | j in r'.chans ensures ChanAgrees(r', j) {
      assert ChanAgrees(r, j);
    }
    forall fd ensures FdAgrees(r', fd) {
      assert FdAgrees(r, fd);
    }
  }

  /** Every change of the wanted events, and updateChannel itself, keeps the agreement, and
      no epoll_ctl fails: ADD is issued only for absent fds, MOD and DEL for present ones. */
  lemma ChangeKeepsAgreement<K>(r: Registry<K>, k: K, change: Change)
    requires Agrees(r) && Owner(r, k)
    ensures Agrees(r.ChangeEvents(k, change))
    ensures r.ChangeEvents(k, change).failures == r.failures
  {
    assert ChanAgrees(r, k) && FdAgrees(r, r.chans[k].fd);
    ChangeRest(r, k, change);
    AgreesLocally(r, r.ChangeEvents(k, change), k);
  }

  lemma RemoveKeepsAgreement<K>(r: Registry<K>, k: K)
    requires Agrees(r) && Owner(r, k)
    ensures Agrees(r.RemoveChannel(k))
    ensures r.RemoveChannel(k).failures == r.failures
  {
    assert ChanAgrees(r, k) && FdAgrees(r, r.chans[k].fd);
    RemoveRest(r, k);
    AgreesLocally(r, r.RemoveChannel(k), k);
  }

  /** disableAll does not simply unregister: it leaves the fd in the interest set exactly if
      it was not there before. A second disableAll adds it again, with an empty mask. */
  lemma DisableAllToggles<K>(r: Registry<K>, k: K)
    requires Agrees(r) && Owner(r, k)
    ensures var fd := r.chans[k].fd;
            var r' := r.ChangeEvents(k, DisableAll);
            && (fd in r'.interest <==> fd !in r.interest)
            && (fd in r'.interest ==> r'.interest[fd] == Interest({}, k))
            && fd in r'.channels
  {
    assert ChanAgrees(r, k) && FdAgrees(r, r.chans[k].fd);
  }

  // ------------------------------------------------------------------- runs

  datatype Op<K> = ChangeOp(k: K, change: Change) | RemoveOp(k: K)

  function Apply<K>(r: Registry<K>, op: Op<K>): (r': Registry<K>)
    requires op.k in r.chans
    ensures r'.chans.Keys == r.chans.Keys
  {
    match op
    case ChangeOp(k, change) => r.ChangeEvents(k, change)
    case RemoveOp(k) => r.RemoveChannel(k)
  }

  function Run<K>(r: Registry<K>, ops: seq<Op<K>>): (r': Registry<K>)
    requires forall i :: 0 <= i < |ops| ==> ops[i].k in r.chans
    decreases |ops|
  {
    if ops == [] then r else Run(Apply(r, ops[0]), ops[1..])
  }

  /** Channels with different, open fds. */
  ghost predicate Distinct<K>(r: Registry<K>) {
    && (forall k :: k in r.chans ==> r.chans[k].fd in r.open)
    && (forall j, k :: j in r.chans && k in r.chans && r.chans[j].fd == r.chans[k].fd ==> j == k)
  }

  lemma {:induction false} RunKeepsAgreement<K>(r: Registry<K>, ops: seq<Op<K>>)
    requires Agrees(r) && Distinct(r)
    requires forall i :: 0 <= i < |ops| ==> ops[i].k in r.chans
    ensures var r' := Run(r, ops); Agrees(r') && Distinct(r') && r'.failures == r.failures
    decreases |ops|
  {
    if ops != [] {
      var k, r' := ops[0].k, Apply(r, ops[0]);
      match ops[0] {
        case ChangeOp(_, change) =>
          ChangeKeepsAgreement(r, k, change);
          ChangeRest(r, k, change);
        case RemoveOp(_) =>
          RemoveKeepsAgreement(r, k);
          RemoveRest(r, k);
      }
      assert Distinct(r');
      RunKeepsAgreement(r', ops[1..]);
    }
  }

  /** One channel as its owner sees it: the events wanted, whether the Poller knows it, and
      whether epoll_wait reports on it. */
  datatype Watch = Watch(events: set<Flag>, known: bool, polled: bool)

  /** Every change is known to the Poller afterwards, and is polled unless it takes the last
      event from a channel that was; removing ends both and leaves the events alone. */
  function Track<K>(w: Watch, op: Op<K>): Watch {
    match op
    case RemoveOp(_) => Watch(w.events, false, false)
    case ChangeOp(_, change) =>
      var events := match change
        case EnableReading => w.events + {In, Pri}
        case EnableWriting => w.events + {Out}
        case DisableWriting => w.events - {Out}
        case DisableAll => {}
        case Refresh => w.events;
      Watch(events, true, !w.polled || events != {})
  }

  function TrackAll<K(==)>(w: Watch, ops: seq<Op<K>>, k: K): Watch
    decreases |ops|
  {
    if ops == [] then w else TrackAll(if ops[0].k == k then Track(w, ops[0]) else w, ops[1..], k)
  }

  predicate Tracked(c: Chan, w: Watch) {
    c.events == w.events && (c.index != New <==> w.known) && (c.index == Added <==> w.polled)
  }

  lemma StepTracked<K>(r: Registry<K>, op: Op<K>, k: K, w: Watch)
    requires op.k in r.chans && k in r.chans && Tracked(r.chans[k], w)
    ensures Tracked(Apply(r, op).chans[k], if op.k == k then Track(w, op) else w)
  {
    match op
    case ChangeOp(j, change) => ChangeRest(r, j, change);
    case RemoveOp(j) => RemoveRest(r, j);
  }

  lemma {:induction false} RunTracked<K>(r: Registry<K>, ops: seq<Op<K>>, k: K, w: Watch)
    requires k in r.chans && Tracked(r.chans[k], w)
    requires forall i :: 0 <= i < |ops| ==> ops[i].k in r.chans
    ensures k in Run(r, ops).chans && Tracked(Run(r, ops).chans[k], TrackAll(w, ops, k))
    decreases |ops|
  {
    if ops != [] {
      StepTracked(r, ops[0], k, w);
      RunTracked(Apply(r, ops[0]), ops[1..], k, if ops[0].k == k then Track(w, ops[0]) else w);
    }
  }

  /** From a Poller without channels: after any run of enabling, disabling and removing on
      channels with different open fds, a channel wants the events its own operations have
      asked for; it is in channels_ iff its last operation was not a removal; it is in the
      interest set, with exactly the events it wants, iff they say it is polled; and no
      epoll_ctl has failed. */
  lemma RegistrationAgrees<K>(r: Registry<K>, ops: seq<Op<K>>)
    requires r.channels == map[] && r.interest == map[] && r.failures == 0 && Distinct(r)
    requires forall k :: k in r.chans ==> r.chans[k].index == New
    requires forall i :: 0 <= i < |ops| ==> ops[i].k in r.chans
    ensures var r' := Run(r, ops);
            && (forall k :: k in r'.chans ==>
                  k in r.chans
                  && var c, w := r'.chans[k], TrackAll(Watch(r.chans[k].events, false, false), ops, k);
                  && (c.fd in r'.channels <==> w.known)
                  && (c.fd in r'.channels ==> r'.channels[c.fd] == k)
                  && (c.fd in r'.interest <==> w.polled)
                  && (c.fd in r'.interest ==> r'.interest[c.fd] == Interest(w.events, k))
                  && Tracked(c, w))
            && r'.failures == 0
  {
    RunKeepsAgreement(r, ops);
    var r' := Run(r, ops);
    RunKeys(r, ops);
    forall k | k in r'.chans
      ensures r'.chans[k].fd in r'.channels <==> r'.chans[k].index != New
      ensures r'.chans[k].fd in r'.channels ==> r'.channels[r'.chans[k].fd] == k
      ensures r'.chans[k].fd in r'.interest <==> r'.chans[k].index == Added
      ensures r'.chans[k].fd in r'.interest ==> r'.interest[r'.chans[k].fd] == Interest(r'.chans[k].events, k)
      ensures Tracked(r'.chans[k], TrackAll(Watch(r.chans[k].events, false, false), ops, k))
    {
      assert ChanAgrees(r', k) && FdAgrees(r', r'.chans[k].fd);
      RunTracked(r, ops, k, Watch(r.chans[k].events, false, false));
    }
  }

  lemma {:induction false} RunKeys<K>(r: Registry<K>, ops: seq<Op<K>>)
    requires forall i :: 0 <= i < |ops| ==> ops[i].k in r.chans
    ensures Run(r, ops).chans.Keys == r.chans.Keys
    decreases |ops|
  {
    if ops != [] { RunKeys(Apply(r, ops[0]), ops[1..]); }
  }
}
