/** split of TcpServer.cpp: std::getline on a string stream until it fails. */
module Split {
  import opened Basics

  /** The first delimiter at or after i, or the end of s. */
  function Find(s: string, i: nat, delim: char): (d: nat)
    requires i <= |s|
    ensures i <= d <= |s|
    ensures d < |s| ==> s[d] == delim
    ensures forall k :: i <= k < d ==> s[k] != delim
    decreases |s| - i
  {
    if i == |s| || s[i] == delim then i else Find(s, i + 1, delim)
  }

  /** std::getline on a good stream with input left: the characters up to the delimiter,
      which is consumed too, or up to the end, which sets eofbit. */
  method GetLine(s: string, pos: nat, delim: char) returns (item: string, next: nat, eof: bool)
    requires pos < |s|
    ensures var d := Find(s, pos, delim);
            && item == s[pos..d]
            && (d < |s| ==> next == d + 1 && !eof)
            && (d == |s| ==> next == d && eof)
  {
    item, next := "", pos;
    while next < |s| && s[next] != delim
      invariant pos <= next <= |s|
      invariant item == s[pos..next]
      invariant Find(s, pos, delim) == Find(s, next, delim)
    {
      item := item + [s[next]];
      next := next + 1;
    }
    eof := next == |s|;
    if !eof { next := next + 1; }
  }

  /** What the loop extracts from position pos on. */
  function PiecesFrom(s: string, pos: nat, delim: char): (ps: seq<string>)
    requires pos <= |s|
    ensures ps == [] <==> pos == |s|
    decreases |s| - pos
  {
    if pos == |s| then []
    else
      var d := Find(s, pos, delim);
      if d == |s| then [s[pos..d]] else [s[pos..d]] + PiecesFrom(s, d + 1, delim)
  }

  function Pieces(s: string, delim: char): seq<string> { PiecesFrom(s, 0, delim) }

  /** getline fails, and the loop ends, once eofbit is set or nothing can be extracted. */
  method Split(s: string, delim: char, elems: seq<string>) returns (out: seq<string>)
    ensures out == elems + Pieces(s, delim)
  {
    out := elems;
    var pos, eof := 0, false;
    while !eof && pos < |s|
      invariant pos <= |s|
      invariant eof ==> pos == |s|
      invariant elems + Pieces(s, delim) == out + PiecesFrom(s, pos, delim)
      decreases |s| - pos
    {
      ghost var from := pos;
      var item;
      item, pos, eof := GetLine(s, pos, delim);
      assert PiecesFrom(s, from, delim) == [item] + PiecesFrom(s, pos, delim);
      out := out + [item];
    }
  }

  // ------------------------------------------------- what splitting means

  function Join(ps: seq<string>, delim: char): string {
    if ps == [] then "" else if |ps| == 1 then ps[0] else ps[0] + [delim] + Join(ps[1..], delim)
  }

  predicate Free(ps: seq<string>, delim: char) { forall k :: 0 <= k < |ps| ==> delim !in ps[k] }

  /** The delimiter at the end of s, if there is one. */
  function Trailing(s: string, delim: char): string {
    if s != "" && s[|s| - 1] == delim then [delim] else ""
  }

  lemma JoinStep(p: string, ps: seq<string>, delim: char)
    ensures Join([p] + ps, delim) == if ps == [] then p else p + [delim] + Join(ps, delim)
  {
    assert ([p] + ps)[1..] == ps;
  }

  lemma {:induction false} FreeFrom(s: string, pos: nat, delim: char)
    requires pos <= |s|
    ensures Free(PiecesFrom(s, pos, delim), delim)
    decreases |s| - pos
  {
    if pos < |s| {
      var d := Find(s, pos, delim);
      assert delim !in s[pos..d];
      if d < |s| { FreeFrom(s, d + 1, delim); }
    }
  }

  /** Joining behind a first piece, and the delimiter the input may end with. */
  lemma JoinMore(all: seq<string>, s: string, p: string, ps: seq<string>, rest: string, delim: char)
    requires Join(ps, delim) + Trailing(rest, delim) == rest && (ps == [] <==> rest == "")
    requires all == [p] + ps && s == p + [delim] + rest
    ensures Join(all, delim) + Trailing(s, delim) == s
  {
    JoinStep(p, ps, delim);
    if rest == "" {
      assert s == p + [delim] && s[|s| - 1] == delim;
    } else {
      assert s[|s| - 1] == rest[|rest| - 1];
      Associative(p + [delim], Join(ps, delim), Trailing(rest, delim));
    }
  }

  lemma JoinOne(all: seq<string>, s: string, delim: char)
    requires all == [s] && s != "" && s[|s| - 1] != delim
    ensures Join(all, delim) + Trailing(s, delim) == s
  {
  }

  lemma {:induction false} JoinFrom(s: string, pos: nat, delim: char)
    requires pos <= |s|
    ensures Join(PiecesFrom(s, pos, delim), delim) + Trailing(s[pos..], delim) == s[pos..]
    decreases |s| - pos
  {
    if pos < |s| {
      var d := Find(s, pos, delim);
      if d < |s| {
        JoinFrom(s, d + 1, delim);
        assert s[pos..] == s[pos..d] + [delim] + s[d + 1..];
        JoinMore(PiecesFrom(s, pos, delim), s[pos..], s[pos..d], PiecesFrom(s, d + 1, delim), s[d + 1..], delim);
      } else {
        assert s[pos..d] == s[pos..];
        JoinOne(PiecesFrom(s, pos, delim), s[pos..], delim);
      }
    }
  }

  /** No piece contains the delimiter, and joining the pieces gives the input back, less one
      trailing delimiter if it had one. */
  lemma JoinOfPieces(s: string, delim: char)
    ensures Free(Pieces(s, delim), delim)
    ensures Join(Pieces(s, delim), delim) + Trailing(s, delim) == s
  {
    FreeFrom(s, 0, delim);
    JoinFrom(s, 0, delim);
    assert s[0..] == s;
  }

  lemma {:induction false} FindFirst(s: string, i: nat, d: nat, delim: char)
    requires i <= d <= |s| && (d < |s| ==> s[d] == delim) && delim !in s[i..d]
    ensures Find(s, i, delim) == d
    decreases d - i
  {
    if i < d {
      assert s[i] == s[i..d][0] && s[i + 1..d] == s[i..d][1..];
      FindFirst(s, i + 1, d, delim);
    }
  }

  /** An empty last piece is dropped. */
  function DropEmptyLast(ps: seq<string>): seq<string> {
    if ps != [] && ps[|ps| - 1] == "" then ps[..|ps| - 1] else ps
  }

  lemma DropAfterFirst(ps: seq<string>, p: string, rest: seq<string>)
    requires ps == [p] + rest && rest != []
    ensures DropEmptyLast(ps) == [p] + DropEmptyLast(rest)
  {
  }

  lemma {:induction false} PiecesAfter(before: string, ps: seq<string>, s: string, delim: char)
    requires Free(ps, delim) && s == before + Join(ps, delim)
    ensures PiecesFrom(s, |before|, delim) == DropEmptyLast(ps)
    decreases |ps|
  {
    if |ps| == 1 {
      LastPiece(before, ps[0], delim);
    } else if ps != [] {
      var p, rest := ps[0], ps[1..];
      assert ps == [p] + rest;
      SplitOff(before, p, Join(rest, delim), s, delim);
      FirstPiece(before, p, Join(rest, delim), delim);
      PiecesAfter(before + p + [delim], rest, s, delim);
      DropAfterFirst(ps, p, rest);
    }
  }

  lemma SplitOff(before: string, p: string, tail: string, s: string, delim: char)
    requires s == before + (p + [delim] + tail)
    ensures s == before + p + [delim] + tail && |before + p + [delim]| == |before| + |p| + 1
  {
  }

  lemma FirstPiece(before: string, p: string, tail: string, delim: char)
    requires delim !in p
    ensures var s := before + p + [delim] + tail;
            PiecesFrom(s, |before|, delim) == [p] + PiecesFrom(s, |before| + |p| + 1, delim)
  {
    var s := before + p + [delim] + tail;
    assert s[|before|..|before| + |p|] == p;
    FindFirst(s, |before|, |before| + |p|, delim);
  }

  lemma LastPiece(before: string, p: string, delim: char)
    requires delim !in p
    ensures PiecesFrom(before + p, |before|, delim) == if p == "" then [] else [p]
  {
    var s := before + p;
    assert s[|before|..|s|] == p;
    FindFirst(s, |before|, |s|, delim);
  }

  /** Splitting a join gives the pieces back, except that an empty last piece is dropped. */
  lemma PiecesOfJoin(ps: seq<string>, delim: char)
    requires Free(ps, delim)
    ensures Pieces(Join(ps, delim), delim) == DropEmptyLast(ps)
  {
    assert "" + Join(ps, delim) == Join(ps, delim);
    PiecesAfter("", ps, Join(ps, delim), delim);
  }

  /** Splitting inverts joining exactly for the piece lists that are free of the delimiter and
      have no empty last piece. */
  lemma SplitInvertsJoin(ps: seq<string>, delim: char)
    ensures Pieces(Join(ps, delim), delim) == ps <==>
              Free(ps, delim) && (ps == [] || ps[|ps| - 1] != "")
  {
    JoinOfPieces(Join(ps, delim), delim);
    if Free(ps, delim) { PiecesOfJoin(ps, delim); }
  }

  /** TcpServer::bind goes on with exactly two pieces. They are host and port if the string is
      host:port with a non-empty port, or host:port: with any port. */
  lemma TwoPieces(s: string, delim: char, host: string, port: string)
    requires delim !in host && delim !in port
    ensures Pieces(s, delim) == [host, port] <==>
              (port != "" && s == host + [delim] + port) || s == host + [delim] + port + [delim]
  {
    JoinOfPieces(s, delim);
    JoinOfTwo(host, port, delim);
    PiecesOfJoin([host, port], delim);
    PiecesOfJoin([host, port, ""], delim);
    assert [host, port, ""][..2] == [host, port];
  }

  lemma JoinOfTwo(host: string, port: string, delim: char)
    ensures Join([host, port], delim) == host + [delim] + port
    ensures Join([host, port, ""], delim) == host + [delim] + port + [delim]
  {
    assert [host, port] == [host] + [port];
    JoinStep(host, [port], delim);
    assert [port, ""] == [port] + [""];
    JoinStep(port, [""], delim);
    assert [host, port, ""] == [host] + [port, ""];
    JoinStep(host, [port, ""], delim);
  }
}
