/** The receiving side of a Socket: handleRead fills inputBuffer_ through readFd, the message
    callback takes bytes out of it. */
module Input {
  import opened Basics
  import opened ByteQueue
  import opened Codec
  import opened NetBuffer

  /** received and consumed: everything readv delivered, and everything the application took. */
  datatype Conn = Conn(buffer: View<byte>, received: seq<byte>, consumed: seq<byte>)

  datatype Step = HandleRead(got: ReadResult) | Consume(n: nat)

  predicate Enabled(c: Conn, step: Step)
    requires c.buffer.Valid()
  {
    match step
    case HandleRead(got) => got.Got? ==> |got.bytes| <= c.buffer.Offered()
    case Consume(n) => n <= |c.buffer.content|
  }

  function Next(c: Conn, step: Step): (c': Conn)
    requires c.buffer.Valid() && Enabled(c, step)
    ensures c'.buffer.Valid()
  {
    match step
    case HandleRead(ReadError(_)) => c
    case HandleRead(Got(bytes)) => c.(buffer := c.buffer.Receive(bytes), received := c.received + bytes)
    case Consume(n) => c.(buffer := c.buffer.Retrieve(n), consumed := c.consumed + c.buffer.content[..n])
  }

  predicate Runs(c: Conn, steps: seq<Step>)
    requires c.buffer.Valid()
    decreases |steps|
  {
    steps == [] || (Enabled(c, steps[0]) && Runs(Next(c, steps[0]), steps[1..]))
  }

  function Run(c: Conn, steps: seq<Step>): (c': Conn)
    requires c.buffer.Valid() && Runs(c, steps)
    ensures c'.buffer.Valid()
    decreases |steps|
  {
    if steps == [] then c else Run(Next(c, steps[0]), steps[1..])
  }

  /** From the steps alone: the bytes that arrived, and how many were taken. */
  function Arrivals(steps: seq<Step>): seq<byte> {
    if steps == [] then []
    else (if steps[0].HandleRead? && steps[0].got.Got? then steps[0].got.bytes else []) + Arrivals(steps[1..])
  }

  function Taken(steps: seq<Step>): nat {
    if steps == [] then 0 else (if steps[0].Consume? then steps[0].n else 0) + Taken(steps[1..])
  }

  lemma {:induction false} RunRecords(c: Conn, steps: seq<Step>)
    requires c.buffer.Valid() && Runs(c, steps)
    ensures Run(c, steps).received == c.received + Arrivals(steps)
    ensures |Run(c, steps).consumed| == |c.consumed| + Taken(steps)
    decreases |steps|
  {
    if steps != [] {
      var c' := Next(c, steps[0]);
      RunRecords(c', steps[1..]);
      var first := if steps[0].HandleRead? && steps[0].got.Got? then steps[0].got.bytes else [];
      assert c'.received == c.received + first;
      Associative(c.received, first, Arrivals(steps[1..]));
    }
  }

  lemma {:induction false} RunConserves(c: Conn, steps: seq<Step>)
    requires c.buffer.Valid() && Runs(c, steps) && c.received == c.consumed + c.buffer.content
    ensures var c' := Run(c, steps); c'.received == c'.consumed + c'.buffer.content
    decreases |steps|
  {
    if steps != [] {
      var step := steps[0];
      if step.Consume? {
        assert c.buffer.content == c.buffer.content[..step.n] + c.buffer.content[step.n..];
      }
      RunConserves(Next(c, step), steps[1..]);
    }
  }

  /** However reads are chunked, whether or not they spill into the side buffer or fail, and
      whatever is taken in between: the bytes taken, as many as were asked for, and the bytes
      buffered are the bytes that arrived, in order. */
  lemma InputConserved(steps: seq<Step>)
    requires Runs(Conn(Fresh(), [], []), steps)
    ensures var c := Run(Conn(Fresh(), [], []), steps);
            c.consumed + c.buffer.content == Arrivals(steps) && |c.consumed| == Taken(steps)
  {
    RunConserves(Conn(Fresh(), [], []), steps);
    RunRecords(Conn(Fresh(), [], []), steps);
  }

  /** One read: at most 131071 bytes if the side buffer is offered, at most the free part of
      the buffer otherwise; and what arrives is appended as it is, in place or not. */
  lemma ReadBound(v: View<byte>, bytes: seq<byte>)
    requires v.Valid() && |bytes| <= v.Offered()
    ensures v.Receive(bytes).content == v.content + bytes
    ensures v.Writable() < EXTRA_SIZE ==> |bytes| <= 131071
    ensures v.Writable() >= EXTRA_SIZE ==> |bytes| <= v.Writable() && v.Receive(bytes).size == v.size
    ensures |bytes| <= v.Writable() <==> v.Receive(bytes).reader == v.reader && v.Receive(bytes).size == v.size
  {
  }
}
