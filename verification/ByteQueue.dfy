/** What a caller can observe of a netlib Buffer: the readable bytes, the reader index and
    the size of the backing vector. Bytes outside [readerIndex_, writerIndex_) are dead and
    not part of the view. The functions below say what every Buffer operation does to the
    view; the lemmas say what whole runs of operations do.

    The element type is a parameter, so that a client can follow tagged bytes. */
module ByteQueue {
  import opened Basics

  const CHEAP_PREPEND: nat := 8
  const INITIAL_SIZE: nat := 1024
  const EXTRA_SIZE: nat := 65536

  datatype View<T> = View(content: seq<T>, reader: nat, size: nat) {
    predicate Valid() {
      && reader < size
      && reader + |content| <= size
      && CHEAP_PREPEND + INITIAL_SIZE <= size
    }

    function Writer(): nat { reader + |content| }

    function Writable(): nat
      requires Valid()
    {
      size - Writer()
    }

    /** Compact if the free bytes in front and behind suffice, grow otherwise. */
    function MakeSpace(len: nat): (v: View<T>)
      requires Valid() && Writable() < len
      ensures v.Valid() && v.content == content && v.Writable() >= len && v.size >= size
    {
      if Writable() + reader < len + CHEAP_PREPEND
      then this.(size := Writer() + len)
      else this.(reader := CHEAP_PREPEND)
    }

    function EnsureWritable(len: nat): (v: View<T>)
      requires Valid()
      ensures v.Valid() && v.content == content && v.Writable() >= len && v.size >= size
      ensures Writable() >= len ==> v == this
    {
      if Writable() < len then MakeSpace(len) else this
    }

    /** The caller stored data at beginWrite() and calls hasWritten(|data|). */
    function Commit(data: seq<T>): (v: View<T>)
      requires Valid() && |data| <= Writable()
      ensures v.Valid() && v.content == content + data
      ensures v.reader == reader && v.Writer() == Writer() + |data| && v.size == size
    {
      this.(content := content + data)
    }

    function Append(data: seq<T>): (v: View<T>)
      requires Valid()
      ensures v.Valid() && v.content == content + data && v.size >= size
      ensures |data| <= Writable() ==> v.reader == reader && v.size == size
      ensures |data| > Writable() ==> v.reader == MakeSpace(|data|).reader && v.size == MakeSpace(|data|).size
    {
      EnsureWritable(|data|).Commit(data)
    }

    function Retrieve(n: nat): (v: View<T>)
      requires Valid() && n <= |content|
      ensures v.Valid() && v.content == content[n..] && v.size == size
      ensures n < |content| ==> v.reader == reader + n && v.Writer() == Writer()
      ensures n == |content| ==> v.reader == v.Writer() == CHEAP_PREPEND && v.Writable() == size - CHEAP_PREPEND
    {
      if n < |content| then View(content[n..], reader + n, size) else View([], CHEAP_PREPEND, size)
    }

    function Prepend(data: seq<T>): (v: View<T>)
      requires Valid() && |data| <= reader
      ensures v.Valid() && v.content == data + content
      ensures v.reader + |data| == reader && v.Writer() == Writer() && v.size == size
    {
      View(data + content, reader - |data|, size)
    }

    function Unwrite(n: nat): (v: View<T>)
      requires Valid() && n <= |content|
      ensures v.Valid() && v.content <= content
      ensures v.reader == reader && v.Writer() + n == Writer() && v.size == size
    {
      this.(content := content[..|content| - n])
    }

    /** How many bytes readFd offers to readv: the side buffer is a second vector only when
        the writable part is smaller than it. */
    function Offered(): (n: nat)
      requires Valid()
      ensures Writable() < EXTRA_SIZE ==> Writable() + EXTRA_SIZE == n <= 131071
      ensures Writable() >= EXTRA_SIZE ==> n == Writable()
    {
      if Writable() < EXTRA_SIZE then Writable() + EXTRA_SIZE else Writable()
    }

    /** readFd when readv delivered the bytes of data: those that fit are committed in
        place, the spill is appended, which may compact or grow. */
    function Receive(data: seq<T>): (v: View<T>)
      requires Valid() && |data| <= Offered()
      ensures v.Valid() && v.content == content + data && v.size >= size
    {
      if |data| <= Writable() then Commit(data)
      else
        assert data[..Writable()] + data[Writable()..] == data;
        assert (content + data[..Writable()]) + data[Writable()..] == content + data;
        Commit(data[..Writable()]).Append(data[Writable()..])
    }
  }

  function Fresh<T>(): (v: View<T>)
    ensures v.Valid()
  {
    View([], CHEAP_PREPEND, CHEAP_PREPEND + INITIAL_SIZE)
  }

  // ---------------------------------------------------------------- runs

  datatype Op<T> =
    | OpAppend(data: seq<T>)
    | OpEnsure(len: nat)
    | OpCommit(data: seq<T>)
    | OpRetrieve(n: nat)
    | OpPrepend(data: seq<T>)
    | OpUnwrite(n: nat)
    | OpReceive(data: seq<T>)

  /** The asserts of the source, as preconditions. */
  predicate Legal<T>(v: View<T>, op: Op<T>)
    requires v.Valid()
  {
    match op
    case OpAppend(_) => true
    case OpEnsure(_) => true
    case OpCommit(data) => |data| <= v.Writable()
    case OpRetrieve(n) => n <= |v.content|
    case OpPrepend(data) => |data| <= v.reader
    case OpUnwrite(n) => n <= |v.content|
    case OpReceive(data) => |data| <= v.Offered()
  }

  function Apply<T>(v: View<T>, op: Op<T>): (v': View<T>)
    requires v.Valid() && Legal(v, op)
    ensures v'.Valid()
  {
    match op
    case OpAppend(data) => v.Append(data)
    case OpEnsure(len) => v.EnsureWritable(len)
    case OpCommit(data) => v.Commit(data)
    case OpRetrieve(n) => v.Retrieve(n)
    case OpPrepend(data) => v.Prepend(data)
    case OpUnwrite(n) => v.Unwrite(n)
    case OpReceive(data) => v.Receive(data)
  }

  predicate LegalRun<T>(v: View<T>, ops: seq<Op<T>>)
    requires v.Valid()
    decreases |ops|
  {
    ops == [] || (Legal(v, ops[0]) && LegalRun(Apply(v, ops[0]), ops[1..]))
  }

  function Run<T>(v: View<T>, ops: seq<Op<T>>): (v': View<T>)
    requires v.Valid() && LegalRun(v, ops)
    ensures v'.Valid()
    decreases |ops|
  {
    if ops == [] then v else Run(Apply(v, ops[0]), ops[1..])
  }

  // ------------------------------------------------- refinement of a plain queue

  /** A double-ended byte sequence without any storage: None where it has too few bytes. */
  function QueueApply<T>(s: seq<T>, op: Op<T>): Option<seq<T>> {
    match op
    case OpAppend(data) => Some(s + data)
    case OpEnsure(_) => Some(s)
    case OpCommit(data) => Some(s + data)
    case OpRetrieve(n) => if n <= |s| then Some(s[n..]) else None
    case OpPrepend(data) => Some(data + s)
    case OpUnwrite(n) => if n <= |s| then Some(s[..|s| - n]) else None
    case OpReceive(data) => Some(s + data)
  }

  function QueueRun<T>(s: seq<T>, ops: seq<Op<T>>): Option<seq<T>>
    decreases |ops|
  {
    if ops == [] then Some(s)
    else
      match QueueApply(s, ops[0])
      case None => None
      case Some(s') => QueueRun(s', ops[1..])
  }

  /** Over every run whose asserts hold, the indexed, compacting, growing buffer is the
      plain sequence, and its vector never shrinks. */
  lemma {:induction false} RunRefinesQueue<T>(v: View<T>, ops: seq<Op<T>>)
    requires v.Valid() && LegalRun(v, ops)
    ensures QueueRun(v.content, ops) == Some(Run(v, ops).content)
    ensures Run(v, ops).size >= v.size
    decreases |ops|
  {
    if ops != [] {
      RunRefinesQueue(Apply(v, ops[0]), ops[1..]);
    }
  }

  /** makeSpace is only entered with too little room behind the writer; then compaction is
      only chosen when the data really moves down, and the room found is enough. */
  lemma CompactionMovesDown<T>(v: View<T>, len: nat)
    requires v.Valid() && v.Writable() < len
    ensures v.EnsureWritable(len) == v.MakeSpace(len)
    ensures v.MakeSpace(len).size == v.size ==> v.MakeSpace(len).reader == CHEAP_PREPEND < v.reader
    ensures v.MakeSpace(len).size == v.size <==> |v.content| + len + CHEAP_PREPEND <= v.size
    ensures v.MakeSpace(len).size != v.size ==>
              v.MakeSpace(len).Writable() == len && v.MakeSpace(len).reader == v.reader
  {
  }

  /** The detour of readFd through the side buffer leaves the buffer, its indices and its
      vector as a single append of all the bytes would. */
  lemma ReceiveIsAppend<T>(v: View<T>, data: seq<T>)
    requires v.Valid() && |data| <= v.Offered()
    ensures v.Receive(data) == v.Append(data)
  {
    if |data| > v.Writable() {
      var full := v.Commit(data[..v.Writable()]);
      assert v.content + data[..v.Writable()] + data[v.Writable()..] == v.content + data;
    }
  }

  /** Whenever a run ends in a retrieve that empties the buffer, the indices are those of a new
      buffer, and all of the vector but the reserve is writable. */
  lemma EmptiedIsFresh<T>(v: View<T>, ops: seq<Op<T>>, n: nat)
    requires v.Valid() && LegalRun(v, ops + [OpRetrieve(n)])
    requires Run(v, ops + [OpRetrieve(n)]).content == []
    ensures var v' := Run(v, ops + [OpRetrieve(n)]);
            && v'.reader == v'.Writer() == CHEAP_PREPEND
            && v'.Writable() == v'.size - CHEAP_PREPEND
  {
    RunSnoc(v, ops, OpRetrieve(n));
  }

  lemma {:induction false} RunSnoc<T>(v: View<T>, ops: seq<Op<T>>, op: Op<T>)
    requires v.Valid() && LegalRun(v, ops + [op])
    ensures LegalRun(v, ops) && Legal(Run(v, ops), op)
    ensures Run(v, ops + [op]) == Apply(Run(v, ops), op)
    decreases |ops|
  {
    if ops == [] {
      assert ops + [op] == [op] && [op][1..] == [];
    } else {
      assert (ops + [op])[0] == ops[0] && (ops + [op])[1..] == ops[1..] + [op];
      RunSnoc(Apply(v, ops[0]), ops[1..], op);
    }
  }

  // ------------------------------------------------------------- space bound

  function Max(a: nat, b: nat): nat { if a < b then b else a }

  function Min(a: nat, b: nat): nat { if a < b then a else b }

  /** The demand readableBytes() + len that one operation puts on ensureWritableBytes. */
  function Demand<T>(v: View<T>, op: Op<T>): nat
    requires v.Valid() && Legal(v, op)
  {
    match op
    case OpAppend(data) => |v.content| + |data|
    case OpEnsure(len) => |v.content| + len
    case OpReceive(data) => if |data| <= v.Writable() then 0 else |v.content| + |data|
    case _ => 0
  }

  function PeakDemand<T>(v: View<T>, ops: seq<Op<T>>): nat
    requires v.Valid() && LegalRun(v, ops)
    decreases |ops|
  {
    if ops == [] then 0
    else Max(Demand(v, ops[0]), PeakDemand(Apply(v, ops[0]), ops[1..]))
  }

  /** One operation leaves the vector as large as it was or stays within 2 * demand + 6;
      it grows only if the demand exceeds what the vector holds behind the reserve. */
  lemma StepSpace<T>(v: View<T>, op: Op<T>)
    requires v.Valid() && Legal(v, op)
    ensures Apply(v, op).size > v.size ==>
              Demand(v, op) + CHEAP_PREPEND > v.size && Apply(v, op).size <= 2 * Demand(v, op) + 6
    ensures Apply(v, op).size >= v.size
  {
  }

  lemma {:induction false} RunSpace<T>(v: View<T>, ops: seq<Op<T>>)
    requires v.Valid() && LegalRun(v, ops)
    ensures var h := PeakDemand(v, ops);
            && (h + CHEAP_PREPEND <= v.size ==> Run(v, ops).size == v.size)
            && Run(v, ops).size <= Max(v.size, 2 * h + 6)
    decreases |ops|
  {
    if ops != [] {
      StepSpace(v, ops[0]);
      RunSpace(Apply(v, ops[0]), ops[1..]);
    }
  }

  /** A buffer that never had to hold more than 1024 bytes keeps its first vector; one with
      peak demand h beyond that never exceeds 2 * h + 6 bytes. */
  lemma SpaceBound<T>(ops: seq<Op<T>>)
    requires LegalRun(Fresh<T>(), ops)
    ensures var h := PeakDemand(Fresh<T>(), ops);
            && (h <= INITIAL_SIZE ==> Run(Fresh<T>(), ops).size == CHEAP_PREPEND + INITIAL_SIZE)
            && (h > INITIAL_SIZE ==> Run(Fresh<T>(), ops).size <= 2 * h + 6)
  {
    RunSpace(Fresh<T>(), ops);
  }

  function Repeat<T>(x: T, n: nat): (s: seq<T>)
    ensures |s| == n
  {
    seq(n, _ => x)
  }

  /** The run that reaches the bound: fill to h - 1, read all but one, take that one back,
      and ask for h. */
  function Greedy<T>(x: T, h: nat): seq<Op<T>>
    requires h > INITIAL_SIZE
  {
    [OpAppend(Repeat(x, h - 1)), OpRetrieve(h - 2), OpUnwrite(1), OpAppend(Repeat(x, h))]
  }

  /** The bound is exact: every peak demand beyond 1024 has a run that reaches it. */
  lemma SpaceBoundAttained<T>(x: T, h: nat)
    requires h > INITIAL_SIZE
    ensures LegalRun(Fresh<T>(), Greedy(x, h))
    ensures PeakDemand(Fresh<T>(), Greedy(x, h)) == h
    ensures Run(Fresh<T>(), Greedy(x, h)).size == 2 * h + 6
  {
    var ops := Greedy(x, h);
    var v0 := Fresh<T>();
    var v1 := v0.Append(Repeat(x, h - 1));
    var v2 := v1.Retrieve(h - 2);
    var v3 := v2.Unwrite(1);
    var v4 := v3.Append(Repeat(x, h));
    assert v1 == View(Repeat(x, h - 1), 8, h + 7);
    assert v3 == View([], h + 6, h + 7);
    assert ops[3..] == [ops[3]] && ops[3..][1..] == [];
    assert LegalRun(v4, []) && LegalRun(v3, ops[3..]);
    assert ops[2..][1..] == ops[3..] && LegalRun(v2, ops[2..]);
    assert ops[1..][1..] == ops[2..] && LegalRun(v1, ops[1..]);
    assert Run(v3, ops[3..]) == Run(v4, []) == v4;
    assert Run(v0, ops) == Run(v1, ops[1..]) == Run(v2, ops[2..]) == Run(v3, ops[3..]);
    assert PeakDemand(v3, ops[3..]) == Max(h, PeakDemand(v4, []));
    assert PeakDemand(v2, ops[2..]) == h;
    assert PeakDemand(v1, ops[1..]) == h;
  }

  // ---------------------------------------------------------- prepend reserve

  function Prepended<T>(ops: seq<Op<T>>): nat {
    if ops == [] then 0
    else (if ops[0].OpPrepend? then |ops[0].data| else 0) + Prepended(ops[1..])
  }

  /** Retrieves, compactions and growths never eat into the reserve: only prepending does. */
  lemma {:induction false} ReserveLeft<T>(v: View<T>, ops: seq<Op<T>>)
    requires v.Valid() && LegalRun(v, ops)
    ensures Run(v, ops).reader + Prepended(ops) >= Min(v.reader, CHEAP_PREPEND)
    decreases |ops|
  {
    if ops != [] {
      ReserveLeft(Apply(v, ops[0]), ops[1..]);
    }
  }
}
