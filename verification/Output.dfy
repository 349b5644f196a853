/** The sending side of a Socket: Send writes directly and queues what the kernel did not
    take; handleWrite writes from the queue. The wire is everything the kernel took, in
    order. Each write takes any part of what it is offered, or fails. */
module Output {
  import opened Basics
  import opened ByteQueue
  import opened Codec

  const EAGAIN: int := 11

  /** write(2): a byte count, or -1 with errno. EWOULDBLOCK is the same number as EAGAIN. */
  datatype WriteResult = Wrote(n: nat) | WriteFailed(errno: int)

  /** On len bytes, write takes at least one of them or fails; on none it returns 0. */
  predicate Possible(w: WriteResult, len: nat) {
    match w
    case Wrote(n) => n <= len && (n == 0 ==> len == 0)
    case WriteFailed(errno) => errno != 0
  }

  /** accepted: the data of the Send calls that returned 0. writing: EPOLLOUT is wanted. */
  datatype Conn<T> = Conn(wire: seq<T>, out: View<T>, writing: bool, accepted: seq<seq<T>>)

  function Send<T>(c: Conn<T>, data: seq<T>, w: WriteResult): (r: (Conn<T>, int))
    requires c.out.Valid() && Possible(w, |data|)
    ensures r.0.out.Valid()
  {
    match w
    case Wrote(n) =>
      if n == |data| then
        (c.(wire := c.wire + data, accepted := c.accepted + [data]), 0)
      else
        (c.(wire := c.wire + data[..n], out := c.out.Append(data[n..]), accepted := c.accepted + [data]), 0)
    case WriteFailed(errno) =>
      (if errno == EAGAIN then c.(writing := true) else c, errno)
  }

  /** What the caller learns: 0 exactly if the write did not fail, and then every byte is on
      the wire or queued; otherwise the error, and then no byte is anywhere. */
  lemma SendReturns<T>(c: Conn<T>, data: seq<T>, w: WriteResult)
    requires c.out.Valid() && Possible(w, |data|)
    ensures var (c', ret) := Send(c, data, w);
            && (ret == 0 <==> w.Wrote?)
            && (w.WriteFailed? ==> ret == w.errno)
            && (ret == 0 ==>
                  && c'.accepted == c.accepted + [data]
                  && c'.wire == c.wire + data[..w.n] && c'.out.content == c.out.content + data[w.n..])
            && (ret != 0 ==> c'.accepted == c.accepted && c'.wire == c.wire && c'.out == c.out)
            && (c'.writing <==> c.writing || ret == EAGAIN)
  {
    assert data[..|data|] == data && c.out.content + data[|data|..] == c.out.content;
  }

  function HandleWrite<T>(c: Conn<T>, w: WriteResult): (c': Conn<T>)
    requires c.out.Valid() && Possible(w, |c.out.content|)
    ensures c'.out.Valid()
  {
    if w.Wrote? && w.n > 0 then
      var out := c.out.Retrieve(w.n);
      c.(wire := c.wire + c.out.content[..w.n], out := out, writing := c.writing && out.content != [])
    else c
  }

  // ------------------------------------------------------------ tagged bytes

  /** A byte of the Send call number send (counting accepted ones), at the given offset. */
  datatype Tagged = Tagged(send: nat, offset: nat, data: byte)

  function Tag(k: nat, bytes: seq<byte>): (s: seq<Tagged>)
    ensures |s| == |bytes|
    ensures forall i :: 0 <= i < |s| ==> s[i] == Tagged(k, i, bytes[i])
  {
    seq(|bytes|, i requires 0 <= i < |bytes| => Tagged(k, i, bytes[i]))
  }

  datatype Step = SendBytes(bytes: seq<byte>, w: WriteResult) | Flush(w: WriteResult)

  predicate Enabled(c: Conn<Tagged>, step: Step) {
    match step
    case SendBytes(bytes, w) => Possible(w, |bytes|)
    case Flush(w) => Possible(w, |c.out.content|)
  }

  function Next(c: Conn<Tagged>, step: Step): (c': Conn<Tagged>)
    requires c.out.Valid() && Enabled(c, step)
    ensures c'.out.Valid()
  {
    match step
    case SendBytes(bytes, w) => Send(c, Tag(|c.accepted|, bytes), w).0
    case Flush(w) => HandleWrite(c, w)
  }

  predicate Runs(c: Conn<Tagged>, steps: seq<Step>)
    requires c.out.Valid()
    decreases |steps|
  {
    steps == [] || (Enabled(c, steps[0]) && Runs(Next(c, steps[0]), steps[1..]))
  }

  function Run(c: Conn<Tagged>, steps: seq<Step>): (c': Conn<Tagged>)
    requires c.out.Valid() && Runs(c, steps)
    ensures c'.out.Valid()
    decreases |steps|
  {
    if steps == [] then c else Run(Next(c, steps[0]), steps[1..])
  }

  function Start(): Conn<Tagged> { Conn([], Fresh(), false, []) }

  /** What has been sent or is waiting to be. */
  function Stream<T>(c: Conn<T>): seq<T> { c.wire + c.out.content }

  // -------------------------------------------------------- order within a Send

  function Only(s: seq<Tagged>, k: nat): seq<Tagged> {
    if s == [] then [] else (if s[0].send == k then [s[0]] else []) + Only(s[1..], k)
  }

  lemma {:induction false} OnlyConcat(a: seq<Tagged>, b: seq<Tagged>, k: nat)
    ensures Only(a + b, k) == Only(a, k) + Only(b, k)
  {
    if a == [] {
      assert a + b == b;
    } else {
      assert (a + b)[0] == a[0] && (a + b)[1..] == a[1..] + b;
      OnlyConcat(a[1..], b, k);
      Associative(Only([a[0]], k), Only(a[1..], k), Only(b, k));
      assert [a[0]][1..] == [];
    }
  }

  predicate From(s: seq<Tagged>, k: nat) { forall x :: x in s ==> x.send == k }

  predicate Before(s: seq<Tagged>, k: nat) { forall x :: x in s ==> x.send < k }

  lemma {:induction false} OnlyOwn(s: seq<Tagged>, k: nat)
    requires From(s, k)
    ensures Only(s, k) == s
  {
    if s != [] {
      assert s[0] in s;
      OnlyOwn(s[1..], k);
    }
  }

  lemma {:induction false} OnlyOthers(s: seq<Tagged>, k: nat)
    requires forall x :: x in s ==> x.send != k
    ensures Only(s, k) == []
  {
    if s != [] {
      assert s[0] in s;
      OnlyOthers(s[1..], k);
    }
  }

  /** Sending splits new data between the wire and the queue. */
  lemma OnlySplit(wire: seq<Tagged>, out: seq<Tagged>, data: seq<Tagged>, n: nat, k: nat)
    requires n <= |data|
    ensures Only(wire + data[..n] + (out + data[n..]), k)
         == Only(wire, k) + Only(data[..n], k) + Only(out, k) + Only(data[n..], k)
  {
    OnlyConcat(wire + data[..n], out + data[n..], k);
    OnlyConcat(wire, data[..n], k);
    OnlyConcat(out, data[n..], k);
  }

  /** Every byte belongs to an accepted Send, and each accepted Send is in the stream as a
      whole and in order. */
  predicate InOrder(c: Conn<Tagged>) {
    && Before(c.wire, |c.accepted|) && Before(c.out.content, |c.accepted|)
    && (forall k :: 0 <= k < |c.accepted| ==> From(c.accepted[k], k) && Only(Stream(c), k) == c.accepted[k])
  }

  lemma SplitOfOwn(wire: seq<Tagged>, out: seq<Tagged>, data: seq<Tagged>, n: nat, k: nat)
    requires n <= |data| && From(data, k) && Before(wire, k) && Before(out, k)
    ensures Only(wire + data[..n] + (out + data[n..]), k) == data
  {
    OnlySplit(wire, out, data, n, k);
    OnlyOthers(wire, k);
    OnlyOthers(out, k);
    HalvesOwn(data, n, k);
  }

  lemma HalvesOwn(data: seq<Tagged>, n: nat, k: nat)
    requires n <= |data| && From(data, k)
    ensures [] + Only(data[..n], k) + [] + Only(data[n..], k) == data
  {
    OnlyOwn(data[..n], k);
    OnlyOwn(data[n..], k);
  }

  lemma SplitOfOthers(wire: seq<Tagged>, out: seq<Tagged>, data: seq<Tagged>, n: nat, k: nat, m: nat)
    requires n <= |data| && From(data, m) && k != m
    ensures Only(wire + data[..n] + (out + data[n..]), k) == Only(wire + out, k)
  {
    OnlySplit(wire, out, data, n, k);
    OnlyConcat(wire, out, k);
    OnlyOthers(data[..n], k);
    OnlyOthers(data[n..], k);
  }

  /** What an accepted Send does to the stream: n bytes go to the wire, the rest behind the
      queue. */
  predicate Splits(c: Conn<Tagged>, c': Conn<Tagged>, data: seq<Tagged>, n: nat) {
    && n <= |data|
    && c'.wire == c.wire + data[..n] && c'.out.content == c.out.content + data[n..]
    && c'.accepted == c.accepted + [data]
  }

  lemma SplitKeepsOrder(c: Conn<Tagged>, c': Conn<Tagged>, data: seq<Tagged>, n: nat)
    requires InOrder(c) && From(data, |c.accepted|) && Splits(c, c', data, n)
    ensures InOrder(c')
  {
    var m := |c.accepted|;
    forall k | 0 <= k <= m ensures From(c'.accepted[k], k) && Only(Stream(c'), k) == c'.accepted[k] {
      if k == m {
        SplitOfOwn(c.wire, c.out.content, data, n, m);
      } else {
        SplitOfOthers(c.wire, c.out.content, data, n, k, m);
      }
    }
  }

  lemma SendSplits(c: Conn<Tagged>, bytes: seq<byte>, w: WriteResult)
    requires c.out.Valid() && Possible(w, |bytes|) && w.Wrote?
    ensures var data := Tag(|c.accepted|, bytes);
            From(data, |c.accepted|) && Splits(c, Send(c, data, w).0, data, w.n)
  {
    var data := Tag(|c.accepted|, bytes);
    assert data[..|data|] == data;
  }

  lemma FlushKeepsStream(c: Conn<Tagged>, w: WriteResult)
    requires c.out.Valid() && Possible(w, |c.out.content|)
    ensures var c' := HandleWrite(c, w);
            && Stream(c') == Stream(c) && c'.accepted == c.accepted
            && (Before(c.wire, |c.accepted|) && Before(c.out.content, |c.accepted|) ==>
                  Before(c'.wire, |c.accepted|) && Before(c'.out.content, |c.accepted|))
  {
    if w.Wrote? && w.n > 0 {
      assert c.out.content == c.out.content[..w.n] + c.out.content[w.n..];
    }
  }

  lemma StepKeepsOrder(c: Conn<Tagged>, step: Step)
    requires c.out.Valid() && Enabled(c, step) && InOrder(c)
    ensures InOrder(Next(c, step))
  {
    if step.Flush? {
      FlushKeepsStream(c, step.w);
    } else if step.w.Wrote? {
      SendSplits(c, step.bytes, step.w);
      SplitKeepsOrder(c, Next(c, step), Tag(|c.accepted|, step.bytes), step.w.n);
    }
  }

  // ------------------------------------------------------- order between Sends

  /** A Send that puts bytes on the wire while older ones are still queued. */
  predicate Overtakes(c: Conn<Tagged>, step: Step) {
    step.SendBytes? && step.w.Wrote? && step.w.n > 0 && c.out.content != []
  }

  predicate SomeOvertakes(c: Conn<Tagged>, steps: seq<Step>)
    requires c.out.Valid() && Runs(c, steps)
    decreases |steps|
  {
    steps != [] && (Overtakes(c, steps[0]) || SomeOvertakes(Next(c, steps[0]), steps[1..]))
  }

  /** A byte of a later Send stands before a byte of an earlier one. */
  ghost predicate Inverted(s: seq<Tagged>) {
    exists i, j :: 0 <= i < j < |s| && s[i].send > s[j].send
  }

  lemma InsertKeepsInverted(a: seq<Tagged>, x: seq<Tagged>, b: seq<Tagged>, y: seq<Tagged>)
    requires Inverted(a + b)
    ensures Inverted(a + x + (b + y))
  {
    var i, j :| 0 <= i < j < |a + b| && (a + b)[i].send > (a + b)[j].send;
    var s := a + x + (b + y);
    var i' := if i < |a| then i else i + |x|;
    var j' := if j < |a| then j else j + |x|;
    assert s[i'] == (a + b)[i] && s[j'] == (a + b)[j];
  }

  lemma OvertakeInverts(c: Conn<Tagged>, c': Conn<Tagged>, data: seq<Tagged>, n: nat)
    requires InOrder(c) && From(data, |c.accepted|) && Splits(c, c', data, n)
    requires n > 0 && c.out.content != []
    ensures Inverted(Stream(c'))
  {
    var s, i, j := Stream(c'), |c.wire|, |c.wire| + n;
    assert s[i] == data[0] && s[j] == c.out.content[0];
    assert data[0] in data && c.out.content[0] in c.out.content;
  }

  lemma {:induction false} AcceptedNotInverted(accepted: seq<seq<Tagged>>)
    requires forall k :: 0 <= k < |accepted| ==> From(accepted[k], k)
    ensures Before(Flatten(accepted), |accepted|)
    ensures !Inverted(Flatten(accepted))
  {
    if accepted != [] {
      var rest, last := accepted[..|accepted| - 1], accepted[|accepted| - 1];
      AcceptedNotInverted(rest);
      assert accepted == rest + [last];
      FlattenSnoc(rest, last);
      var s: seq<Tagged> := Flatten(rest) + last;
      forall i, j | 0 <= i < j < |s| ensures s[i].send <= s[j].send {
        if j < |Flatten(rest)| {
          assert Flatten<Tagged>(rest)[i].send <= Flatten<Tagged>(rest)[j].send;
        } else {
          assert s[j] == last[j - |Flatten(rest)|] && s[j] in last;
          assert s[i] in Flatten(rest) || s[i] in last;
        }
      }
    }
  }

  /** Until a Send overtakes, the stream is the accepted data in order; from then on, never. */
  ghost predicate OrderedUnless(c: Conn<Tagged>, overtaken: bool) {
    if overtaken then Inverted(Stream(c)) else Stream(c) == Flatten(c.accepted)
  }

  lemma StepOrdered(c: Conn<Tagged>, step: Step, overtaken: bool)
    requires c.out.Valid() && Enabled(c, step) && InOrder(c) && OrderedUnless(c, overtaken)
    ensures OrderedUnless(Next(c, step), overtaken || Overtakes(c, step))
  {
    if step.Flush? {
      FlushKeepsStream(c, step.w);
    } else if step.w.Wrote? {
      var data, n := Tag(|c.accepted|, step.bytes), step.w.n;
      SendSplits(c, step.bytes, step.w);
      if overtaken {
        InsertKeepsInverted(c.wire, data[..n], c.out.content, data[n..]);
      } else if Overtakes(c, step) {
        OvertakeInverts(c, Next(c, step), data, n);
      } else {
        FlattenSnoc(c.accepted, data);
        NotOvertaking(c.wire, c.out.content, data, n);
      }
    }
  }

  lemma NotOvertaking(wire: seq<Tagged>, out: seq<Tagged>, data: seq<Tagged>, n: nat)
    requires n <= |data| && (n == 0 || out == [])
    ensures wire + data[..n] + (out + data[n..]) == wire + out + data
  {
  }

  lemma {:induction false} RunOrdered(c: Conn<Tagged>, steps: seq<Step>, overtaken: bool)
    requires c.out.Valid() && Runs(c, steps) && InOrder(c) && OrderedUnless(c, overtaken)
    ensures InOrder(Run(c, steps))
    ensures OrderedUnless(Run(c, steps), overtaken || SomeOvertakes(c, steps))
    decreases |steps|
  {
    if steps != [] {
      StepKeepsOrder(c, steps[0]);
      StepOrdered(c, steps[0], overtaken);
      RunOrdered(Next(c, steps[0]), steps[1..], overtaken || Overtakes(c, steps[0]));
    }
  }

  // ------------------------------------------------------------- bookkeeping

  function Bytes(s: seq<Tagged>): (b: seq<byte>)
    ensures |b| == |s| && forall i :: 0 <= i < |b| ==> b[i] == s[i].data
  {
    seq(|s|, i requires 0 <= i < |s| => s[i].data)
  }

  /** A run in numbers, from its steps alone: the data of the Sends whose write did not fail,
      the bytes the kernel took, the bytes it did not take yet, and whether EPOLLOUT is wanted. */
  datatype Ledger = Ledger(sent: seq<seq<byte>>, written: int, queued: int, writing: bool)

  function Record(l: Ledger, step: Step): Ledger {
    match step
    case SendBytes(bytes, Wrote(n)) =>
      Ledger(l.sent + [bytes], l.written + n, l.queued + |bytes| - n, l.writing)
    case SendBytes(_, WriteFailed(errno)) => l.(writing := l.writing || errno == EAGAIN)
    case Flush(Wrote(n)) =>
      if n == 0 then l
      else Ledger(l.sent, l.written + n, l.queued - n, l.writing && l.queued > n)
    case Flush(WriteFailed(_)) => l
  }

  function Account(l: Ledger, steps: seq<Step>): Ledger
    decreases |steps|
  {
    if steps == [] then l else Account(Record(l, steps[0]), steps[1..])
  }

  predicate Matches(c: Conn<Tagged>, l: Ledger) {
    && |c.accepted| == |l.sent|
    && (forall k :: 0 <= k < |l.sent| ==> Bytes(c.accepted[k]) == l.sent[k])
    && |c.wire| == l.written && |c.out.content| == l.queued && c.writing == l.writing
  }

  lemma StepMatches(c: Conn<Tagged>, step: Step, l: Ledger)
    requires c.out.Valid() && Enabled(c, step) && Matches(c, l)
    ensures Matches(Next(c, step), Record(l, step))
  {
    if step.SendBytes? {
      var data := Tag(|c.accepted|, step.bytes);
      SendReturns(c, data, step.w);
      assert Bytes(data) == step.bytes;
    }
  }

  lemma {:induction false} RunMatches(c: Conn<Tagged>, steps: seq<Step>, l: Ledger)
    requires c.out.Valid() && Runs(c, steps) && Matches(c, l)
    ensures Matches(Run(c, steps), Account(l, steps))
    decreases |steps|
  {
    if steps != [] {
      StepMatches(c, steps[0], l);
      RunMatches(Next(c, steps[0]), steps[1..], Record(l, steps[0]));
    }
  }

  // ------------------------------------------------------------ main results

  /** Conservation: in every run, whatever parts of the data the kernel takes, the wire
      followed by the output buffer holds the data of every Send whose write did not fail
      completely, once and in order, and nothing else; on the wire are as many bytes as the
      writes took. */
  lemma OutputConserved(steps: seq<Step>)
    requires Runs(Start(), steps)
    ensures var c, l := Run(Start(), steps), Account(Ledger([], 0, 0, false), steps);
            && Matches(c, l)
            && (forall k :: 0 <= k < |c.accepted| ==> Only(Stream(c), k) == c.accepted[k])
            && Before(Stream(c), |c.accepted|)
  {
    RunOrdered(Start(), steps, false);
    RunMatches(Start(), steps, Ledger([], 0, 0, false));
  }

  /** The Sends follow one another in the order of the calls if and only if none of them
      wrote to the socket while the output buffer was not empty. */
  lemma TotalOrderIff(steps: seq<Step>)
    requires Runs(Start(), steps)
    ensures var c := Run(Start(), steps);
            Stream(c) == Flatten(c.accepted) <==> !SomeOvertakes(Start(), steps)
  {
    RunOrdered(Start(), steps, false);
    AcceptedNotInverted(Run(Start(), steps).accepted);
  }

  // -------------------------------------------------------- tags are only tags

  function Untagged(c: Conn<Tagged>): Conn<byte> {
    Conn(
      Bytes(c.wire),
      View(Bytes(c.out.content), c.out.reader, c.out.size),
      c.writing,
      seq(|c.accepted|, k requires 0 <= k < |c.accepted| => Bytes(c.accepted[k])))
  }

  /** Without the tags, the tagged run is the run of the Socket on plain bytes. */
  lemma TagsOnlyLabel(c: Conn<Tagged>, step: Step)
    requires c.out.Valid() && Enabled(c, step)
    ensures Untagged(Next(c, step)) ==
            match step
            case SendBytes(bytes, w) => Send(Untagged(c), bytes, w).0
            case Flush(w) => HandleWrite(Untagged(c), w)
  {
    match step {
      case SendBytes(bytes, w) =>
        var data := Tag(|c.accepted|, bytes);
        assert Bytes(data) == bytes;
        if w.Wrote? {
          assert Bytes(c.wire + data[..w.n]) == Bytes(c.wire) + bytes[..w.n];
          assert Bytes(c.out.content + data[w.n..]) == Bytes(c.out.content) + bytes[w.n..];
          assert data[..|data|] == data && bytes[..|bytes|] == bytes;
        }
      case Flush(w) =>
        if w.Wrote? {
          assert Bytes(c.wire + c.out.content[..w.n]) == Bytes(c.wire) + Bytes(c.out.content)[..w.n];
          assert Bytes(c.out.content[w.n..]) == Bytes(c.out.content)[w.n..];
        }
    }
  }
}
