/** netlib's Buffer as it is written: a vector with a reader and a writer index, updated in
    place. Every method is proved against the view functions of ByteQueue. */
module NetBuffer {
  import opened Basics
  import opened ByteQueue
  import opened Codec

  const CR: byte := 13
  const LF: byte := 10

  /** What readv returns: -1 with errno, or the bytes it delivered. */
  datatype ReadResult = ReadError(errno: int) | Got(bytes: seq<byte>)

  // ------------------------------------------------------------ CRLF search

  predicate IsCRLFAt(s: seq<byte>, i: nat) {
    i + 1 < |s| && s[i] == CR && s[i + 1] == LF
  }

  /** std::search: the first CRLF at or after i, or the end of s. */
  function Search(s: seq<byte>, i: nat): (r: nat)
    requires i <= |s|
    ensures i <= r <= |s|
    ensures r < |s| ==> IsCRLFAt(s, r)
    ensures forall k :: i <= k < r ==> !IsCRLFAt(s, k)
    decreases |s| - i
  {
    if i == |s| || IsCRLFAt(s, i) then i else Search(s, i + 1)
  }

  /** The result of Search is the only index with its properties. */
  lemma SearchIs(s: seq<byte>, i: nat, r: nat)
    requires i <= r <= |s| && (r < |s| ==> IsCRLFAt(s, r))
    requires forall k :: i <= k < r ==> !IsCRLFAt(s, k)
    ensures Search(s, i) == r
  {
  }

  // ------------------------------------------------------------- std::copy

  /** std::copy(a + lo, a + hi, a + dst) with the ranges overlapping and dst below lo. */
  method CopyDown(a: array<byte>, lo: nat, hi: nat, dst: nat)
    requires dst <= lo <= hi <= a.Length
    modifies a
    ensures a[dst..dst + (hi - lo)] == old(a[lo..hi])
    ensures a[..dst] == old(a[..dst]) && a[dst + (hi - lo)..] == old(a[dst + (hi - lo)..])
  {
    ghost var was := a[..];
    var i := lo;
    while i < hi
      invariant lo <= i <= hi
      invariant forall k :: dst <= k < dst + (i - lo) ==> a[k] == was[k + (lo - dst)]
      invariant forall k :: 0 <= k < dst || dst + (i - lo) <= k < a.Length ==> a[k] == was[k]
    {
      a[dst + (i - lo)] := a[i];
      i := i + 1;
    }
  }

  /** std::copy(data, data + |data|, a + at) from outside the vector. */
  method CopyIn(a: array<byte>, at: nat, data: seq<byte>)
    requires at + |data| <= a.Length
    modifies a
    ensures a[at..at + |data|] == data
    ensures a[..at] == old(a[..at]) && a[at + |data|..] == old(a[at + |data|..])
  {
    var i := 0;
    while i < |data|
      invariant 0 <= i <= |data|
      invariant forall k :: 0 <= k < i ==> a[at + k] == data[k]
      invariant forall k :: 0 <= k < at || at + i <= k < a.Length ==> a[k] == old(a[k])
    {
      a[at + i] := data[i];
      i := i + 1;
    }
  }

  lemma Slices(s: seq<byte>, i: nat, j: nat, k: nat)
    requires i <= j <= k <= |s|
    ensures s[i..k] == s[i..j] + s[j..k]
  {
  }

  lemma Front(s: seq<byte>, i: nat, j: nat, n: nat)
    requires i + n <= j <= |s|
    ensures s[i..i + n] == s[i..j][..n]
  {
  }

  class Buffer {
    var buffer_: array<byte>
    var readerIndex_: nat
    var writerIndex_: nat

    ghost predicate Valid()
      reads this
    {
      && readerIndex_ < buffer_.Length
      && readerIndex_ <= writerIndex_ <= buffer_.Length
      && CHEAP_PREPEND + INITIAL_SIZE <= buffer_.Length
    }

    ghost function View(): (v: View<byte>)
      requires Valid()
      reads this, buffer_
      ensures v.Valid()
    {
      ByteQueue.View(buffer_[readerIndex_..writerIndex_], readerIndex_, buffer_.Length)
    }

    constructor ()
      ensures Valid() && fresh(buffer_) && View() == Fresh()
    {
      buffer_ := new byte[CHEAP_PREPEND + INITIAL_SIZE](_ => 0);
      readerIndex_ := CHEAP_PREPEND;
      writerIndex_ := CHEAP_PREPEND;
    }

    function ReadableBytes(): nat
      requires Valid()
      reads this
    {
      writerIndex_ - readerIndex_
    }

    function WritableBytes(): nat
      requires Valid()
      reads this
    {
      buffer_.Length - writerIndex_
    }

    function PrependableBytes(): nat
      reads this
    {
      readerIndex_
    }

    // ---------------------------------------------------------- searching

    /** findCRLF(start), with pointers as indices into the vector; None is NULL. */
    method FindCRLF(start: nat) returns (r: Option<nat>)
      requires Valid() && readerIndex_ <= start <= writerIndex_
      ensures var i := Search(View().content, start - readerIndex_);
              r == if i == |View().content| then None else Some(readerIndex_ + i)
    {
      var crlf := start;
      ghost var s := View().content;
      while crlf < writerIndex_ && !(crlf + 1 < writerIndex_ && buffer_[crlf] == CR && buffer_[crlf + 1] == LF)
        invariant start <= crlf <= writerIndex_
        invariant forall k :: start - readerIndex_ <= k < crlf - readerIndex_ ==> !IsCRLFAt(s, k)
      {
        assert !IsCRLFAt(s, crlf - readerIndex_);
        crlf := crlf + 1;
      }
      assert crlf < writerIndex_ ==> IsCRLFAt(s, crlf - readerIndex_);
      SearchIs(s, start - readerIndex_, crlf - readerIndex_);
      return if crlf == writerIndex_ then None else Some(crlf);
    }

    // ---------------------------------------------------------- consuming

    method Retrieve(len: nat)
      requires Valid() && len <= ReadableBytes()
      modifies this`readerIndex_, this`writerIndex_
      ensures Valid() && View() == old(View()).Retrieve(len)
    {
      if len < ReadableBytes() {
        readerIndex_ := readerIndex_ + len;
      } else {
        RetrieveAll();
      }
    }

    method RetrieveUntil(end: nat)
      requires Valid() && readerIndex_ <= end <= writerIndex_
      modifies this`readerIndex_, this`writerIndex_
      ensures Valid() && View() == old(View()).Retrieve(end - old(readerIndex_))
    {
      Retrieve(end - readerIndex_);
    }

    method RetrieveAll()
      requires Valid()
      modifies this`readerIndex_, this`writerIndex_
      ensures Valid() && View() == old(View()).Retrieve(|old(View()).content|)
      ensures readerIndex_ == writerIndex_ == CHEAP_PREPEND && buffer_ == old(buffer_)
    {
      readerIndex_ := CHEAP_PREPEND;
      writerIndex_ := CHEAP_PREPEND;
    }

    method RetrieveAsString(len: nat) returns (result: seq<byte>)
      requires Valid() && len <= ReadableBytes()
      modifies this`readerIndex_, this`writerIndex_
      ensures Valid() && View() == old(View()).Retrieve(len)
      ensures result == old(View()).content[..len]
    {
      result := buffer_[readerIndex_..readerIndex_ + len];
      Retrieve(len);
    }

    method Unwrite(len: nat)
      requires Valid() && len <= ReadableBytes()
      modifies this`writerIndex_
      ensures Valid() && View() == old(View()).Unwrite(len)
    {
      writerIndex_ := writerIndex_ - len;
    }

    // ---------------------------------------------------------- producing

    method EnsureWritableBytes(len: nat)
      requires Valid()
      modifies this, buffer_
      ensures Valid() && View() == old(View()).EnsureWritable(len)
      ensures buffer_ == old(buffer_) || fresh(buffer_)
    {
      if WritableBytes() < len {
        MakeSpace(len);
      }
      assert WritableBytes() >= len;
    }

    /** Private: called only with too little room behind the writer. */
    method MakeSpace(len: nat)
      requires Valid() && WritableBytes() < len
      modifies this, buffer_
      ensures Valid() && View() == old(View()).MakeSpace(len)
      ensures buffer_ == old(buffer_) || fresh(buffer_)
    {
      if WritableBytes() + PrependableBytes() < len + CHEAP_PREPEND {
        Resize(writerIndex_ + len);
      } else {
        assert CHEAP_PREPEND < readerIndex_;
        var readable := ReadableBytes();
        CopyDown(buffer_, readerIndex_, writerIndex_, CHEAP_PREPEND);
        readerIndex_ := CHEAP_PREPEND;
        writerIndex_ := readerIndex_ + readable;
        assert readable == ReadableBytes();
      }
    }

    /** std::vector::resize to a larger size: the elements move to a new block and the rest
        of it is zero. */
    method Resize(n: nat)
      requires Valid() && buffer_.Length <= n
      modifies this`buffer_
      ensures Valid() && fresh(buffer_) && buffer_.Length == n
      ensures buffer_[..old(buffer_.Length)] == old(buffer_[..])
      ensures forall k :: old(buffer_.Length) <= k < n ==> buffer_[k] == 0
    {
      var from, block := buffer_, new byte[n](_ => 0);
      var i := 0;
      while i < from.Length
        invariant 0 <= i <= from.Length
        invariant forall k :: 0 <= k < i ==> block[k] == from[k]
        invariant forall k :: i <= k < n ==> block[k] == 0
      {
        block[i] := from[i];
        i := i + 1;
      }
      buffer_ := block;
    }

    method HasWritten(len: nat)
      requires Valid() && len <= WritableBytes()
      modifies this`writerIndex_
      ensures Valid() && View() == old(View()).Commit(buffer_[old(writerIndex_)..old(writerIndex_) + len])
    {
      writerIndex_ := writerIndex_ + len;
    }

    method Append(data: seq<byte>)
      requires Valid()
      modifies this, buffer_
      ensures Valid() && View() == old(View()).Append(data)
      ensures buffer_ == old(buffer_) || fresh(buffer_)
    {
      EnsureWritableBytes(|data|);
      ghost var before := View();
      CopyIn(buffer_, writerIndex_, data);
      assert buffer_[readerIndex_..writerIndex_] == buffer_[..writerIndex_][readerIndex_..] == before.content;
      HasWritten(|data|);
    }

    method Prepend(data: seq<byte>)
      requires Valid() && |data| <= PrependableBytes()
      modifies this`readerIndex_, buffer_
      ensures Valid() && View() == old(View()).Prepend(data)
    {
      ghost var before := View();
      readerIndex_ := readerIndex_ - |data|;
      CopyIn(buffer_, readerIndex_, data);
      assert buffer_[readerIndex_ + |data|..writerIndex_]
          == buffer_[readerIndex_ + |data|..][..writerIndex_ - readerIndex_ - |data|] == before.content;
      assert buffer_[readerIndex_..writerIndex_] == data + before.content;
    }

    /** readv on the two vectors of readFd: the free part of the buffer is filled first, the
        rest of the bytes goes to the side buffer. */
    method ReadV(bytes: seq<byte>, extrabuf: array<byte>)
      requires Valid() && extrabuf != buffer_ && extrabuf.Length == EXTRA_SIZE
      requires |bytes| <= View().Offered()
      modifies buffer_, extrabuf
      ensures View() == old(View())
      ensures |bytes| <= WritableBytes() ==> buffer_[writerIndex_..writerIndex_ + |bytes|] == bytes
      ensures |bytes| > WritableBytes() ==>
                && buffer_[writerIndex_..] == bytes[..WritableBytes()]
                && extrabuf[..|bytes| - WritableBytes()] == bytes[WritableBytes()..]
    {
      ghost var readable := buffer_[..writerIndex_];
      if |bytes| <= WritableBytes() {
        CopyIn(buffer_, writerIndex_, bytes);
      } else {
        CopyIn(buffer_, writerIndex_, bytes[..WritableBytes()]);
        CopyIn(extrabuf, 0, bytes[WritableBytes()..]);
        assert buffer_[writerIndex_..buffer_.Length] == buffer_[writerIndex_..];
      }
      assert buffer_[..writerIndex_] == readable;
      assert buffer_[readerIndex_..writerIndex_] == readable[readerIndex_..];
    }

    method ReadFd(got: ReadResult) returns (n: int, savedErrno: Option<int>)
      requires Valid()
      requires got.Got? ==> |got.bytes| <= View().Offered()
      modifies this, buffer_
      ensures Valid()
      ensures got.Got? ==> n == |got.bytes| && savedErrno == None && View() == old(View()).Receive(got.bytes)
      ensures got.ReadError? ==> n == -1 && savedErrno == Some(got.errno) && View() == old(View())
      ensures buffer_ == old(buffer_) || fresh(buffer_)
    {
      savedErrno := None;
      var extrabuf := new byte[EXTRA_SIZE](_ => 0);
      var writable := WritableBytes();
      if got.ReadError? {
        n := -1;
        savedErrno := Some(got.errno);
      } else {
        ReadV(got.bytes, extrabuf);
        n := |got.bytes|;
        if n <= writable {
          Slices(buffer_[..], readerIndex_, writerIndex_, writerIndex_ + n);
          writerIndex_ := writerIndex_ + n;
        } else {
          Spill(got.bytes, extrabuf);
        }
      }
    }

    /** writerIndex_ = buffer_.size(). */
    method FillUp(ghost bytes: seq<byte>)
      requires Valid() && buffer_[writerIndex_..] == bytes
      modifies this`writerIndex_
      ensures Valid() && View() == old(View()).Commit(bytes)
    {
      Slices(buffer_[..], readerIndex_, writerIndex_, buffer_.Length);
      writerIndex_ := buffer_.Length;
    }

    /** The branch of readFd for more bytes than fit: the vector is full, the rest is appended. */
    method Spill(bytes: seq<byte>, extrabuf: array<byte>)
      requires Valid() && extrabuf != buffer_
      requires WritableBytes() < |bytes| <= WritableBytes() + extrabuf.Length && |bytes| <= View().Offered()
      requires buffer_[writerIndex_..] == bytes[..WritableBytes()]
      requires extrabuf[..|bytes| - WritableBytes()] == bytes[WritableBytes()..]
      modifies this, buffer_
      ensures Valid() && View() == old(View()).Receive(bytes)
      ensures buffer_ == old(buffer_) || fresh(buffer_)
    {
      var writable := WritableBytes();
      ghost var before := View();
      assert writable == before.Writable();
      FillUp(bytes[..writable]);
      ghost var full := View();
      Append(extrabuf[..|bytes| - writable]);
      assert View() == full.Append(bytes[writable..]);
    }

    // ------------------------------------------------------ typed values

    method AppendInt(host: Host, item: Item)
      requires Valid()
      modifies this, buffer_
      ensures Valid() && View() == old(View()).Append(Encode(host, item))
      ensures buffer_ == old(buffer_) || fresh(buffer_)
    {
      Append(Encode(host, item));
    }

    method PrependInt(host: Host, item: Item)
      requires Valid() && item.kind.Width() <= PrependableBytes()
      modifies this`readerIndex_, buffer_
      ensures Valid() && View() == old(View()).Prepend(Encode(host, item))
    {
      Prepend(Encode(host, item));
    }

    function PeekInt(host: Host, kind: Kind): int
      requires Valid() && kind.Width() <= ReadableBytes()
      reads this, buffer_
    {
      Decode(host, kind, buffer_[readerIndex_..readerIndex_ + kind.Width()])
    }

    method ReadInt(host: Host, kind: Kind) returns (result: int)
      requires Valid() && kind.Width() <= ReadableBytes()
      modifies this`readerIndex_, this`writerIndex_
      ensures Valid() && View() == old(View()).Retrieve(kind.Width())
      ensures result == Decode(host, kind, old(View()).content[..kind.Width()])
    {
      ghost var first := View().content[..kind.Width()];
      Front(buffer_[..], readerIndex_, writerIndex_, kind.Width());
      assert buffer_[readerIndex_..readerIndex_ + kind.Width()] == first;
      result := PeekInt(host, kind);
      assert result == Decode(host, kind, first);
      Retrieve(kind.Width());
    }
  }
}
