/** Length-prefixed frames: the 8 bytes reserved in front of the data leave room for a header
    that is written after the body. */
module Framing {
  import opened ByteQueue
  import opened Codec

  function Header(length: nat): (item: Item)
    requires InRange(length, 4)
  {
    RawItem(K32, length)
  }

  /** However a body was produced - any appends, reads, retrieves, compactions and growths,
      and up to four bytes of other headers - prependInt32 of its length is allowed. On the
      receiving side, whatever follows in the buffer, readInt32 gives the length,
      retrieveAsString of that length the body, and what follows is left. */
  lemma FrameRoundTrip(ops: seq<Op<byte>>, from: Host, to: Host, received: View<byte>, tail: seq<byte>)
    requires LegalRun(Fresh(), ops) && Prepended(ops) <= 4
    requires var body := Run(Fresh(), ops).content;
             && InRange(|body|, 4)
             && received.Valid()
             && received.content == Encode(from, Header(|body|)) + body + tail
    ensures var v := Run(Fresh(), ops);
            var header := Encode(from, Header(|v.content|));
            && Legal(v, OpPrepend(header))
            && v.Prepend(header).content + tail == received.content
            && Decode(to, K32, received.content[..4]) == |v.content|
            && received.Retrieve(4).content[..|v.content|] == v.content
            && received.Retrieve(4).Retrieve(|v.content|).content == tail
  {
    ReserveLeft(Fresh<byte>(), ops);
    var body := Run(Fresh<byte>(), ops).content;
    var header := Encode(from, Header(|body|));
    RoundTrip(from, to, Header(|body|));
    TakeApart(header, body, tail);
  }

  lemma TakeApart(header: seq<byte>, body: seq<byte>, tail: seq<byte>)
    ensures var s := header + body + tail;
            && s[..|header|] == header
            && s[|header|..][..|body|] == body
            && s[|header|..][|body|..] == tail
  {
  }

  /** After every run from a new buffer in which p bytes have been prepended in all, at least k
      bytes are free in front. */
  ghost predicate AlwaysRoom(p: nat, k: nat) {
    forall ops: seq<Op<byte>> :: LegalRun(Fresh(), ops) && Prepended(ops) == p ==> Run(Fresh(), ops).reader >= k
  }

  /** Room for k more bytes is guaranteed exactly while p + k fits the reserve; beyond, some run
      leaves less. */
  lemma RoomInFrontIff(p: nat, k: nat)
    ensures AlwaysRoom(p, k) <==> k == 0 || p + k <= CHEAP_PREPEND
  {
    if k == 0 || p + k <= CHEAP_PREPEND {
      forall ops: seq<Op<byte>> | LegalRun(Fresh(), ops) && Prepended(ops) == p
        ensures Run(Fresh(), ops).reader >= k
      {
        ReserveLeft(Fresh<byte>(), ops);
      }
    } else {
      UsesReserve(p);
      assert Run(Fresh(), Prepends(p)).reader < k;
    }
  }

  /** A run that leaves as little room as possible: what is beyond the reserve is prepended
      and taken back, the last 8 bytes are prepended at once. */
  function Prepends(p: nat): seq<Op<byte>> {
    if p <= CHEAP_PREPEND then [OpPrepend(seq(p, _ => 0))]
    else [OpPrepend([0]), OpRetrieve(1)] + Prepends(p - 1)
  }

  lemma {:induction false} UsesReserve(p: nat)
    ensures LegalRun(Fresh(), Prepends(p)) && Prepended(Prepends(p)) == p
    ensures Run(Fresh(), Prepends(p)).reader == if p <= CHEAP_PREPEND then CHEAP_PREPEND - p else 0
    decreases p
  {
    var ops := Prepends(p);
    if p <= CHEAP_PREPEND {
      assert ops[1..] == [];
    } else {
      var v := Fresh<byte>().Prepend([0]);
      assert ops[1..] == [OpRetrieve(1)] + Prepends(p - 1);
      assert ops[1..][1..] == Prepends(p - 1);
      assert Apply(v, OpRetrieve(1)) == Fresh<byte>();
      UsesReserve(p - 1);
    }
  }
}
