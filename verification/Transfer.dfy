/** Typed values through two Buffers and a connection. One side appends integers to its
    buffer and drains it by short writes (handleWrite: write some bytes, retrieve as many);
    the other side receives by readFd in chunks of any size and reads integers back. The two
    hosts may differ in byte order, and all four activities interleave freely. */
module Transfer {
  import opened ByteQueue
  import opened Codec
  import opened Basics

  datatype Link = Link(
    sender: View<byte>,
    wire: seq<byte>,
    receiver: View<byte>,
    pushed: seq<Item>,
    decoded: seq<Item>)

  datatype Step =
    | Push(item: Item)    // appendInt8/16/32 on the sending side
    | Write(n: nat)       // write(2) took n bytes; retrieve(n)
    | Receive(n: nat)     // readv(2) delivered n bytes into the receiving buffer
    | ReadNext            // the readInt call that matches the next pushed value

  predicate Valid(l: Link) { l.sender.Valid() && l.receiver.Valid() }

  predicate Enabled(l: Link, step: Step)
    requires Valid(l)
  {
    match step
    case Push(_) => true
    case Write(n) => 1 <= n <= |l.sender.content|
    case Receive(n) => 1 <= n <= |l.wire| && n <= l.receiver.Offered()
    case ReadNext =>
      && |l.decoded| < |l.pushed|
      && l.pushed[|l.decoded|].kind.Width() <= |l.receiver.content|
  }

  function Next(l: Link, step: Step, from: Host, to: Host): (l': Link)
    requires Valid(l) && Enabled(l, step)
    ensures Valid(l')
  {
    match step
    case Push(item) => Pushed(l, item, Encode(from, item))
    case Write(n) => Written(l, n)
    case Receive(n) => Received(l, n)
    case ReadNext =>
      var kind := l.pushed[|l.decoded|].kind;
      Read(l, ReadItem(to, kind, l.receiver.content[..kind.Width()]))
  }

  function Pushed(l: Link, item: Item, encoding: seq<byte>): (l': Link)
    requires Valid(l)
    ensures Valid(l')
  {
    l.(sender := l.sender.Append(encoding), pushed := l.pushed + [item])
  }

  function Written(l: Link, n: nat): (l': Link)
    requires Valid(l) && n <= |l.sender.content|
    ensures Valid(l')
  {
    l.(wire := l.wire + l.sender.content[..n], sender := l.sender.Retrieve(n))
  }

  function Received(l: Link, n: nat): (l': Link)
    requires Valid(l) && n <= |l.wire| && n <= l.receiver.Offered()
    ensures Valid(l')
  {
    l.(wire := l.wire[n..], receiver := l.receiver.Receive(l.wire[..n]))
  }

  function Read(l: Link, item: Item): (l': Link)
    requires Valid(l) && item.kind.Width() <= |l.receiver.content|
    ensures Valid(l')
  {
    l.(receiver := l.receiver.Retrieve(item.kind.Width()), decoded := l.decoded + [item])
  }

  function ReadItem(host: Host, kind: Kind, s: seq<byte>): Item
    requires |s| == kind.Width()
  {
    DecodeThenEncode(host, host, kind, s);
    RawItem(kind, Decode(host, kind, s))
  }

  predicate Runs(l: Link, steps: seq<Step>, from: Host, to: Host)
    requires Valid(l)
    decreases |steps|
  {
    steps == [] || (Enabled(l, steps[0]) && Runs(Next(l, steps[0], from, to), steps[1..], from, to))
  }

  function Run(l: Link, steps: seq<Step>, from: Host, to: Host): (l': Link)
    requires Valid(l) && Runs(l, steps, from, to)
    ensures Valid(l')
    decreases |steps|
  {
    if steps == [] then l else Run(Next(l, steps[0], from, to), steps[1..], from, to)
  }

  function Start(): Link { Link(Fresh(), [], Fresh(), [], []) }

  // ---------------------------------------------------------------- invariant

  function Encodings(host: Host, items: seq<Item>): (ss: seq<seq<byte>>)
    ensures |ss| == |items|
    ensures forall i :: 0 <= i < |items| ==> ss[i] == Encode(host, items[i])
  {
    seq(|items|, i requires 0 <= i < |items| => Encode(host, items[i]))
  }

  function EncodeAll(host: Host, items: seq<Item>): seq<byte> { Flatten(Encodings(host, items)) }

  function InFlight(l: Link): seq<byte> { l.receiver.content + l.wire + l.sender.content }

  /** The values read so far are the first ones pushed, and the bytes in flight are exactly
      the encodings of the others, in order. */
  predicate Inv(l: Link, from: Host)
    requires Valid(l)
  {
    && l.decoded <= l.pushed
    && InFlight(l) == EncodeAll(from, l.pushed[|l.decoded|..])
  }

  lemma StepPush(l: Link, item: Item, from: Host)
    requires Valid(l) && Inv(l, from)
    ensures Inv(Pushed(l, item, Encode(from, item)), from)
  {
    var e := Encode(from, item);
    var rest, l' := l.pushed[|l.decoded|..], Pushed(l, item, e);
    EncodeAllSnoc(from, rest, item);
    assert l'.pushed[|l.decoded|..] == rest + [item];
    PushedInFlight(l, item, e);
  }

  lemma EncodeAllSnoc(host: Host, items: seq<Item>, item: Item)
    ensures EncodeAll(host, items + [item]) == EncodeAll(host, items) + Encode(host, item)
  {
    var e := Encode(host, item);
    assert Encodings(host, items + [item]) == Encodings(host, items) + [e];
    FlattenSnoc(Encodings(host, items), e);
  }

  lemma PushedInFlight(l: Link, item: Item, e: seq<byte>)
    requires Valid(l)
    ensures InFlight(Pushed(l, item, e)) == InFlight(l) + e
  {
  }

  lemma WrittenInFlight(l: Link, n: nat)
    requires Valid(l) && n <= |l.sender.content|
    ensures InFlight(Written(l, n)) == InFlight(l)
  {
    assert l.sender.content == l.sender.content[..n] + l.sender.content[n..];
  }

  lemma ReceivedInFlight(l: Link, n: nat)
    requires Valid(l) && n <= |l.wire| && n <= l.receiver.Offered()
    ensures InFlight(Received(l, n)) == InFlight(l)
  {
    assert l.wire == l.wire[..n] + l.wire[n..];
  }

  lemma ReadInFlight(l: Link, item: Item)
    requires Valid(l) && item.kind.Width() <= |l.receiver.content|
    ensures InFlight(Read(l, item)) == InFlight(l)[item.kind.Width()..]
    ensures l.receiver.content[..item.kind.Width()] == InFlight(l)[..item.kind.Width()]
  {
  }

  lemma StepRead(l: Link, from: Host, to: Host)
    requires Valid(l) && Inv(l, from) && Enabled(l, ReadNext)
    ensures Inv(Next(l, ReadNext, from, to), from)
  {
    var rest := l.pushed[|l.decoded|..];
    HeadIsEncoded(from, rest);
    ReadInFlight(l, rest[0]);
    NextIsRead(l, rest[0], from, to);
    assert l.decoded + [rest[0]] == l.pushed[..|l.decoded| + 1];
    assert rest[1..] == l.pushed[|l.decoded| + 1..];
  }

  lemma NextIsRead(l: Link, item: Item, from: Host, to: Host)
    requires Valid(l) && Enabled(l, ReadNext) && item == l.pushed[|l.decoded|]
    requires l.receiver.content[..item.kind.Width()] == Encode(from, item)
    ensures Next(l, ReadNext, from, to) == Read(l, item)
  {
    RoundTrip(from, to, item);
  }

  lemma HeadIsEncoded(host: Host, items: seq<Item>)
    requires items != []
    ensures var w := items[0].kind.Width();
            var s := EncodeAll(host, items);
            |s| >= w && s[..w] == Encode(host, items[0]) && s[w..] == EncodeAll(host, items[1..])
  {
    assert Encodings(host, items)[1..] == Encodings(host, items[1..]);
  }

  lemma {:induction false} RunKeepsInv(l: Link, steps: seq<Step>, from: Host, to: Host)
    requires Valid(l) && Inv(l, from) && Runs(l, steps, from, to)
    ensures Inv(Run(l, steps, from, to), from)
    decreases |steps|
  {
    if steps != [] {
      match steps[0] {
        case Push(item) => StepPush(l, item, from);
        case Write(n) => WrittenInFlight(l, n);
        case Receive(n) => ReceivedInFlight(l, n);
        case ReadNext => StepRead(l, from, to);
      }
      RunKeepsInv(Next(l, steps[0], from, to), steps[1..], from, to);
    }
  }

  // ------------------------------------------------------------ main results

  ghost predicate Drained(l: Link)
    requires Valid(l)
  {
    forall step: Step :: Enabled(l, step) ==> step.Push?
  }

  /** From the steps alone: the values pushed, the number of values read, and the bytes moved
      by writes and by reads. */
  function Pushes(steps: seq<Step>): seq<Item> {
    if steps == [] then [] else (if steps[0].Push? then [steps[0].item] else []) + Pushes(steps[1..])
  }

  function Reads(steps: seq<Step>): nat {
    if steps == [] then 0 else (if steps[0].ReadNext? then 1 else 0) + Reads(steps[1..])
  }

  function BytesWritten(steps: seq<Step>): nat {
    if steps == [] then 0 else (if steps[0].Write? then steps[0].n else 0) + BytesWritten(steps[1..])
  }

  function BytesReceived(steps: seq<Step>): nat {
    if steps == [] then 0 else (if steps[0].Receive? then steps[0].n else 0) + BytesReceived(steps[1..])
  }

  function Widths(items: seq<Item>): nat {
    if items == [] then 0 else items[0].kind.Width() + Widths(items[1..])
  }

  lemma {:induction false} WidthsSnoc(items: seq<Item>, item: Item)
    ensures Widths(items + [item]) == Widths(items) + item.kind.Width()
  {
    if items == [] {
      assert [item][1..] == [];
    } else {
      assert (items + [item])[1..] == items[1..] + [item];
      WidthsSnoc(items[1..], item);
    }
  }

  /** Where the bytes are, by number: every push, write, receive and read has moved exactly
      the bytes it says. */
  lemma {:induction false} RunMoves(l: Link, steps: seq<Step>, from: Host, to: Host)
    requires Valid(l) && Runs(l, steps, from, to)
    ensures var l' := Run(l, steps, from, to);
            && l'.pushed == l.pushed + Pushes(steps)
            && |l'.decoded| == |l.decoded| + Reads(steps)
            && |l'.sender.content| + BytesWritten(steps) + Widths(l.pushed) == |l.sender.content| + Widths(l'.pushed)
            && |l'.wire| + BytesReceived(steps) == |l.wire| + BytesWritten(steps)
            && |l'.receiver.content| + Widths(l'.decoded)
               == |l.receiver.content| + Widths(l.decoded) + BytesReceived(steps)
    decreases |steps|
  {
    if steps != [] {
      var step, l' := steps[0], Next(l, steps[0], from, to);
      var first := if step.Push? then [step.item] else [];
      RunMoves(l', steps[1..], from, to);
      assert l'.pushed == l.pushed + first;
      Associative(l.pushed, first, Pushes(steps[1..]));
      if step.Push? { WidthsSnoc(l.pushed, step.item); }
      if step.ReadNext? { WidthsSnoc(l.decoded, l'.decoded[|l.decoded|]); }
    }
  }

  /** At every moment of every run, the values read are the first of the values pushed, one for
      each read; and when only pushing is left to do, they are all of them and no byte is left
      over. */
  lemma EndToEnd(steps: seq<Step>, from: Host, to: Host)
    requires Runs(Start(), steps, from, to)
    ensures var l := Run(Start(), steps, from, to);
            && l.decoded <= Pushes(steps) && |l.decoded| == Reads(steps)
            && (Drained(l) ==> l.decoded == Pushes(steps) && InFlight(l) == [])
  {
    RunKeepsInv(Start(), steps, from, to);
    RunMoves(Start(), steps, from, to);
    assert [] + Pushes(steps) == Pushes(steps);
    var l := Run(Start(), steps, from, to);
    if Drained(l) {
      NothingLeft(l, from);
    }
  }

  /** The bytes in the two buffers and on the wire, counted from the steps. */
  lemma BytesAccounted(steps: seq<Step>, from: Host, to: Host)
    requires Runs(Start(), steps, from, to)
    ensures var l := Run(Start(), steps, from, to);
            && |l.sender.content| == Widths(Pushes(steps)) - BytesWritten(steps)
            && |l.wire| == BytesWritten(steps) - BytesReceived(steps)
            && Reads(steps) <= |Pushes(steps)|
            && |l.receiver.content| == BytesReceived(steps) - Widths(Pushes(steps)[..Reads(steps)])
  {
    EndToEnd(steps, from, to);
    RunMoves(Start(), steps, from, to);
    assert [] + Pushes(steps) == Pushes(steps);
    assert Run(Start(), steps, from, to).decoded == Pushes(steps)[..Reads(steps)];
  }

  lemma NothingLeft(l: Link, from: Host)
    requires Valid(l) && Inv(l, from) && Drained(l)
    ensures l.decoded == l.pushed && InFlight(l) == []
  {
    assert !Enabled(l, Write(1));
    assert !Enabled(l, Receive(1));
    assert !Enabled(l, ReadNext);
    assert InFlight(l) == l.receiver.content;
    var rest := l.pushed[|l.decoded|..];
    if rest != [] {
      HeadIsEncoded(from, rest);
    }
  }

  /** Draining cannot go on forever: without new values, a run takes at most three steps for
      each byte in the sending buffer, two for one on the wire, one for one received. */
  function Work(l: Link): nat { 3 * |l.sender.content| + 2 * |l.wire| + |l.receiver.content| }

  lemma {:induction false} DrainingEnds(l: Link, steps: seq<Step>, from: Host, to: Host)
    requires Valid(l) && Runs(l, steps, from, to)
    requires forall i :: 0 <= i < |steps| ==> !steps[i].Push?
    ensures |steps| <= Work(l)
    decreases |steps|
  {
    if steps != [] {
      assert Work(Next(l, steps[0], from, to)) < Work(l);
      DrainingEnds(Next(l, steps[0], from, to), steps[1..], from, to);
    }
  }
}
