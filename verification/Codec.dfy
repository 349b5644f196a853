/** The integer codec on top of the buffer: two's complement integers of 1, 2 or 4 bytes in
    network byte order (Appendix B of RFC 791). A host stores integers in its own byte order;
    the wire bytes must not depend on it. */
module Codec {
  type byte = x: int | 0 <= x < 256

  datatype Host = LittleEndian | BigEndian

  function Pow256(n: nat): (p: nat)
    ensures p > 0
  {
    if n == 0 then 1 else 256 * Pow256(n - 1)
  }

  /** The n base-256 digits of v, most significant first. */
  function Digits(v: nat, n: nat): (s: seq<byte>)
    ensures |s| == n
  {
    if n == 0 then [] else Digits(v / 256, n - 1) + [v % 256]
  }

  function Value(s: seq<byte>): nat {
    if s == [] then 0 else Value(s[..|s| - 1]) * 256 + s[|s| - 1]
  }

  function Reverse(s: seq<byte>): (r: seq<byte>)
    ensures |r| == |s|
    ensures forall i :: 0 <= i < |s| ==> r[i] == s[|s| - 1 - i]
  {
    if s == [] then [] else Reverse(s[1..]) + [s[0]]
  }

  lemma {:induction false} DigitsOfValue(s: seq<byte>)
    ensures Value(s) < Pow256(|s|)
    ensures Digits(Value(s), |s|) == s
  {
    if s != [] {
      DigitsOfValue(s[..|s| - 1]);
      assert s == s[..|s| - 1] + [s[|s| - 1]];
    }
  }

  lemma {:induction false} ValueOfDigits(v: nat, n: nat)
    requires v < Pow256(n)
    ensures Value(Digits(v, n)) == v
  {
    if n > 0 {
      ValueOfDigits(v / 256, n - 1);
      assert Digits(v, n)[..n - 1] == Digits(v / 256, n - 1);
    }
  }

  lemma ReverseTwice(s: seq<byte>)
    ensures Reverse(Reverse(s)) == s
  {
  }

  // ------------------------------------------------------------ host memory

  /** The bytes of an n-byte unsigned integer object, in address order. */
  function Memory(host: Host, v: nat, n: nat): (s: seq<byte>)
    ensures |s| == n
  {
    if host == BigEndian then Digits(v, n) else Reverse(Digits(v, n))
  }

  /** What memcpy into an integer object of |s| bytes makes of s. */
  function Load(host: Host, s: seq<byte>): nat {
    if host == BigEndian then Value(s) else Value(Reverse(s))
  }

  /** htons/htonl, and equally ntohs/ntohl: the identity or a byte swap. */
  function HostToNet(host: Host, v: nat, n: nat): nat {
    if host == BigEndian then v else Value(Reverse(Digits(v, n)))
  }

  /** Storing the converted integer puts the digits on the wire most significant first,
      whatever the host. */
  lemma StoredInNetworkOrder(host: Host, v: nat, n: nat)
    requires v < Pow256(n)
    ensures Memory(host, HostToNet(host, v, n), n) == Digits(v, n)
  {
    if host == LittleEndian {
      DigitsOfValue(Reverse(Digits(v, n)));
      ReverseTwice(Digits(v, n));
    }
  }

  /** Loading and converting back reads the digits most significant first. */
  lemma LoadedFromNetworkOrder(host: Host, s: seq<byte>)
    ensures HostToNet(host, Load(host, s), |s|) == Value(s)
  {
    if host == LittleEndian {
      DigitsOfValue(Reverse(s));
      ReverseTwice(s);
    }
  }

  // ------------------------------------------------------------ typed values

  /** The unsigned object representation of x, and back (two's complement, n bytes). */
  function Unsigned(x: int, n: nat): nat
    requires n > 0 && InRange(x, n)
  {
    if x < 0 then x + Pow256(n) else x
  }

  function Signed(v: nat, n: nat): int {
    if 2 * v < Pow256(n) then v else v - Pow256(n)
  }

  predicate InRange(x: int, n: nat) { 0 <= 2 * x + Pow256(n) < 2 * Pow256(n) }

  datatype Kind = K8 | K16 | K32 {
    function Width(): (n: nat)
      ensures n > 0
    {
      match this case K8 => 1 case K16 => 2 case K32 => 4
    }
  }

  datatype RawItem = RawItem(kind: Kind, value: int)
  type Item = i: RawItem | InRange(i.value, i.kind.Width()) witness RawItem(K8, 0)

  /** What appendInt8/16/32 append on the given host; one-byte values are not converted. */
  function Encode(host: Host, item: Item): (s: seq<byte>)
    ensures |s| == item.kind.Width()
  {
    var n := item.kind.Width();
    var v := Unsigned(item.value, n);
    Memory(host, if item.kind == K8 then v else HostToNet(host, v, n), n)
  }

  /** What peekInt8/16/32 return on the given host. */
  function Decode(host: Host, kind: Kind, s: seq<byte>): int
    requires |s| == kind.Width()
  {
    var n := kind.Width();
    var v := Load(host, s);
    Signed(if kind == K8 then v else HostToNet(host, v, n), n)
  }

  lemma OneByteIsItsReverse(s: seq<byte>)
    requires |s| == 1
    ensures Reverse(s) == s
  {
  }

  /** Every host puts the same bytes on the wire: the base-256 digits of the two's
      complement, most significant first. */
  lemma EncodesInNetworkOrder(host: Host, item: Item)
    ensures Encode(host, item) == Digits(Unsigned(item.value, item.kind.Width()), item.kind.Width())
  {
    var n := item.kind.Width();
    var v := Unsigned(item.value, n);
    StoredInNetworkOrder(host, v, n);
    if item.kind == K8 { OneByteIsItsReverse(Digits(v, 1)); }
  }

  lemma DecodesFromNetworkOrder(host: Host, kind: Kind, s: seq<byte>)
    requires |s| == kind.Width()
    ensures Decode(host, kind, s) == Signed(Value(s), kind.Width())
  {
    LoadedFromNetworkOrder(host, s);
    if kind == K8 { OneByteIsItsReverse(s); }
  }

  // ------------------------------------------------------------ in plain numbers

  lemma OneDigit(v: nat)
    requires v < 0x100
    ensures Digits(v, 1) == [v]
  {
    assert Digits(v, 1) == Digits(v / 256, 0) + [v % 256];
  }

  lemma TwoDigits(v: nat)
    requires v < 0x1_0000
    ensures Digits(v, 2) == [v / 256, v % 256]
  {
    assert Digits(v / 256, 1) == Digits(v / 256 / 256, 0) + [v / 256 % 256];
  }

  lemma FourDigits(v: nat)
    requires v < 0x1_0000_0000
    ensures Digits(v, 4) == [v / 0x100_0000, v / 0x1_0000 % 256, v / 256 % 256, v % 256]
  {
    TwoDigits(v / 0x1_0000);
    assert Digits(v / 256, 3) == Digits(v / 256 / 256, 2) + [v / 256 % 256];
    assert v / 256 / 256 == v / 0x1_0000 && v / 0x1_0000 / 256 == v / 0x100_0000;
  }

  /** The three integer types of C, and their bytes on the wire from any host. */
  lemma WireBytes(host: Host, item: Item)
    ensures match item.kind
            case K8 =>
              && -0x80 <= item.value < 0x80
              && var u := item.value % 0x100; Encode(host, item) == [u]
            case K16 =>
              && -0x8000 <= item.value < 0x8000
              && var u := item.value % 0x1_0000; Encode(host, item) == [u / 256, u % 256]
            case K32 =>
              && -0x8000_0000 <= item.value < 0x8000_0000
              && var u := item.value % 0x1_0000_0000;
                 Encode(host, item) == [u / 0x100_0000, u / 0x1_0000 % 256, u / 256 % 256, u % 256]
  {
    EncodesInNetworkOrder(host, item);
    Powers();
    match item.kind {
      case K8 =>
        assert Unsigned(item.value, 1) == item.value % 0x100;
        OneDigit(item.value % 0x100);
      case K16 =>
        assert Unsigned(item.value, 2) == item.value % 0x1_0000;
        TwoDigits(item.value % 0x1_0000);
      case K32 =>
        assert Unsigned(item.value, 4) == item.value % 0x1_0000_0000;
        FourDigits(item.value % 0x1_0000_0000);
    }
  }

  lemma Powers()
    ensures Pow256(1) == 0x100 && Pow256(2) == 0x1_0000 && Pow256(4) == 0x1_0000_0000
  {
    assert Pow256(4) == 256 * Pow256(3) && Pow256(3) == 256 * Pow256(2);
  }

  /** A little-endian host keeps the least significant byte first, a big-endian host last. */
  lemma HostBytes(v: nat)
    requires v < 0x1_0000_0000
    ensures Memory(BigEndian, v, 4) == [v / 0x100_0000, v / 0x1_0000 % 256, v / 256 % 256, v % 256]
    ensures Memory(LittleEndian, v, 4) == [v % 256, v / 256 % 256, v / 0x1_0000 % 256, v / 0x100_0000]
  {
    FourDigits(v);
  }

  /** A value written on one host and read on any other comes back unchanged. */
  lemma RoundTrip(writer: Host, reader: Host, item: Item)
    ensures Decode(reader, item.kind, Encode(writer, item)) == item.value
  {
    var n := item.kind.Width();
    EncodesInNetworkOrder(writer, item);
    DecodesFromNetworkOrder(reader, item.kind, Encode(writer, item));
    ValueOfDigits(Unsigned(item.value, n), n);
  }

  /** Every byte string of the right width is the encoding of the value read from it, so
      decoding is a bijection and loses nothing. */
  lemma DecodeThenEncode(reader: Host, writer: Host, kind: Kind, s: seq<byte>)
    requires |s| == kind.Width()
    ensures InRange(Decode(reader, kind, s), kind.Width())
    ensures Encode(writer, RawItem(kind, Decode(reader, kind, s))) == s
  {
    DecodesFromNetworkOrder(reader, kind, s);
    DigitsOfValue(s);
    UnsignedOfSigned(Value(s), kind.Width());
    EncodesInNetworkOrder(writer, RawItem(kind, Decode(reader, kind, s)));
  }

  lemma UnsignedOfSigned(v: nat, n: nat)
    requires n > 0 && v < Pow256(n)
    ensures InRange(Signed(v, n), n) && Unsigned(Signed(v, n), n) == v
  {
    EvenPower(n);
  }

  lemma EvenPower(n: nat)
    requires n > 0
    ensures Pow256(n) % 2 == 0
  {
  }
}
