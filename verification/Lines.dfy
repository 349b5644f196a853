/** CRLF-terminated lines taken from a Buffer while the stream is still arriving: find the
    first CRLF, retrieve the bytes before it as a line, retrieve the CRLF. The chunks in
    which the stream is appended may end anywhere, also between CR and LF. */
module Lines {
  import opened ByteQueue
  import opened Codec
  import opened NetBuffer
  import opened Basics

  const CRLF: seq<byte> := [CR, LF]

  predicate HasCRLF(s: seq<byte>) { exists i :: 0 <= i < |s| && IsCRLFAt(s, i) }

  /** Splitting a whole stream at once: its lines and the unfinished rest. */
  function SplitLines(s: seq<byte>): (r: (seq<seq<byte>>, seq<byte>))
    decreases |s|
  {
    var i := Search(s, 0);
    if i == |s| then ([], s)
    else
      var (lines, rest) := SplitLines(s[i + 2..]);
      ([s[..i]] + lines, rest)
  }

  function Terminated(lines: seq<seq<byte>>): (t: seq<seq<byte>>)
    ensures |t| == |lines|
    ensures forall k :: 0 <= k < |t| ==> t[k] == lines[k] + CRLF
  {
    seq(|lines|, k requires 0 <= k < |lines| => lines[k] + CRLF)
  }

  /** The lines, each followed by CRLF, and then the rest. */
  function JoinLines(lines: seq<seq<byte>>, rest: seq<byte>): seq<byte> {
    Flatten(Terminated(lines)) + rest
  }

  lemma JoinCons(line: seq<byte>, lines: seq<seq<byte>>, rest: seq<byte>)
    ensures JoinLines([line] + lines, rest) == line + CRLF + JoinLines(lines, rest)
  {
    assert Terminated([line] + lines) == [line + CRLF] + Terminated(lines);
    FlattenConcat([line + CRLF], Terminated(lines));
    assert Flatten([line + CRLF]) == (line + CRLF) + Flatten<byte>([]);
  }

  // --------------------------------------------------- what splitting means

  predicate Plain(lines: seq<seq<byte>>, rest: seq<byte>) {
    !HasCRLF(rest) && forall k :: 0 <= k < |lines| ==> !HasCRLF(lines[k])
  }

  lemma SearchMisses(s: seq<byte>)
    ensures Search(s, 0) == |s| <==> !HasCRLF(s)
  {
  }

  lemma CutAtCRLF(s: seq<byte>, i: nat)
    requires i == Search(s, 0) < |s|
    ensures !HasCRLF(s[..i]) && s == s[..i] + CRLF + s[i + 2..]
  {
    forall k | 0 <= k < i ensures !IsCRLFAt(s[..i], k) {
      assert !IsCRLFAt(s, k);
    }
  }

  lemma {:induction false} SplitIsPlainJoin(s: seq<byte>)
    ensures var (lines, rest) := SplitLines(s); Plain(lines, rest) && JoinLines(lines, rest) == s
    decreases |s|
  {
    var i := Search(s, 0);
    SearchMisses(s);
    if i == |s| {
      NothingToJoin(s);
    } else {
      CutAtCRLF(s, i);
      SplitIsPlainJoin(s[i + 2..]);
      var (lines, rest) := SplitLines(s[i + 2..]);
      JoinCons(s[..i], lines, rest);
    }
  }

  lemma NothingToJoin(s: seq<byte>)
    ensures JoinLines([], s) == s
  {
    assert Terminated([]) == [];
  }

  lemma FirstCRLF(line: seq<byte>, tail: seq<byte>)
    requires !HasCRLF(line)
    ensures Search(line + CRLF + tail, 0) == |line|
  {
    var s := line + CRLF + tail;
    assert IsCRLFAt(s, |line|);
    forall k | 0 <= k < |line| ensures !IsCRLFAt(s, k) {
      if k + 1 < |line| { assert IsCRLFAt(line, k) == IsCRLFAt(s, k); }
    }
  }

  lemma {:induction false} PlainJoinSplits(lines: seq<seq<byte>>, rest: seq<byte>)
    requires Plain(lines, rest)
    ensures SplitLines(JoinLines(lines, rest)) == (lines, rest)
  {
    var s := JoinLines(lines, rest);
    if lines == [] {
      assert s == rest;
      SearchMisses(rest);
    } else {
      var tail := JoinLines(lines[1..], rest);
      assert lines == [lines[0]] + lines[1..];
      JoinCons(lines[0], lines[1..], rest);
      FirstCRLF(lines[0], tail);
      assert s[..|lines[0]|] == lines[0] && s[|lines[0]| + 2..] == tail;
      PlainJoinSplits(lines[1..], rest);
    }
  }

  /** (lines, rest) is the split of s exactly when no part contains a CRLF and joining the
      parts gives back s. */
  lemma SplitCharacterised(s: seq<byte>, lines: seq<seq<byte>>, rest: seq<byte>)
    ensures SplitLines(s) == (lines, rest) <==> Plain(lines, rest) && JoinLines(lines, rest) == s
  {
    SplitIsPlainJoin(s);
    if Plain(lines, rest) { PlainJoinSplits(lines, rest); }
  }

  // ------------------------------------------------------------------- runs

  datatype Session = Session(buffer: View<byte>, lines: seq<seq<byte>>, stream: seq<byte>)

  datatype Step =
    | Feed(chunk: seq<byte>)    // append
    | Arrive(chunk: seq<byte>)  // readFd
    | TakeLine                  // findCRLF; retrieveAsString up to it; retrieve the CRLF

  predicate Enabled(x: Session, step: Step)
    requires x.buffer.Valid()
  {
    match step
    case Feed(_) => true
    case Arrive(chunk) => |chunk| <= x.buffer.Offered()
    case TakeLine => Search(x.buffer.content, 0) < |x.buffer.content|
  }

  function Next(x: Session, step: Step): (x': Session)
    requires x.buffer.Valid() && Enabled(x, step)
    ensures x'.buffer.Valid()
  {
    match step
    case Feed(chunk) => x.(buffer := x.buffer.Append(chunk), stream := x.stream + chunk)
    case Arrive(chunk) => x.(buffer := x.buffer.Receive(chunk), stream := x.stream + chunk)
    case TakeLine =>
      var i := Search(x.buffer.content, 0);
      x.(buffer := x.buffer.Retrieve(i).Retrieve(2), lines := x.lines + [x.buffer.content[..i]])
  }

  predicate Runs(x: Session, steps: seq<Step>)
    requires x.buffer.Valid()
    decreases |steps|
  {
    steps == [] || (Enabled(x, steps[0]) && Runs(Next(x, steps[0]), steps[1..]))
  }

  function Run(x: Session, steps: seq<Step>): (x': Session)
    requires x.buffer.Valid() && Runs(x, steps)
    ensures x'.buffer.Valid()
    decreases |steps|
  {
    if steps == [] then x else Run(Next(x, steps[0]), steps[1..])
  }

  /** From the steps alone: the bytes that arrived, and how many lines were taken. */
  function Arrivals(steps: seq<Step>): seq<byte> {
    if steps == [] then [] else (if steps[0].TakeLine? then [] else steps[0].chunk) + Arrivals(steps[1..])
  }

  function Takes(steps: seq<Step>): nat {
    if steps == [] then 0 else (if steps[0].TakeLine? then 1 else 0) + Takes(steps[1..])
  }

  lemma {:induction false} RunRecords(x: Session, steps: seq<Step>)
    requires x.buffer.Valid() && Runs(x, steps)
    ensures Run(x, steps).stream == x.stream + Arrivals(steps)
    ensures |Run(x, steps).lines| == |x.lines| + Takes(steps)
    decreases |steps|
  {
    if steps != [] {
      var first := if steps[0].TakeLine? then [] else steps[0].chunk;
      RunRecords(Next(x, steps[0]), steps[1..]);
      assert Next(x, steps[0]).stream == x.stream + first;
      Associative(x.stream, first, Arrivals(steps[1..]));
    }
  }

  /** The lines taken are plain, and with the bytes still buffered they make up the stream. */
  predicate Inv(x: Session) {
    && JoinLines(x.lines, x.buffer.content) == x.stream
    && forall k :: 0 <= k < |x.lines| ==> !HasCRLF(x.lines[k])
  }

  lemma JoinSnoc(lines: seq<seq<byte>>, line: seq<byte>, rest: seq<byte>)
    ensures JoinLines(lines + [line], rest) == JoinLines(lines, line + CRLF + rest)
  {
    assert Terminated(lines + [line]) == Terminated(lines) + [line + CRLF];
    FlattenSnoc(Terminated(lines), line + CRLF);
    Associative(Flatten(Terminated(lines)), line + CRLF, rest);
  }

  lemma StepKeepsInv(x: Session, step: Step)
    requires x.buffer.Valid() && Enabled(x, step) && Inv(x)
    ensures Inv(Next(x, step))
  {
    var s := x.buffer.content;
    if step.TakeLine? {
      var i := Search(s, 0);
      JoinSnoc(x.lines, s[..i], s[i + 2..]);
      assert s == s[..i] + CRLF + s[i + 2..];
      assert forall k :: 0 <= k < i ==> IsCRLFAt(s[..i], k) ==> IsCRLFAt(s, k);
    } else {
      Associative(Flatten(Terminated(x.lines)), s, step.chunk);
    }
  }

  lemma {:induction false} RunKeepsInv(x: Session, steps: seq<Step>)
    requires x.buffer.Valid() && Runs(x, steps) && Inv(x)
    ensures Inv(Run(x, steps))
    decreases |steps|
  {
    if steps != [] {
      StepKeepsInv(x, steps[0]);
      RunKeepsInv(Next(x, steps[0]), steps[1..]);
    }
  }

  /** Plain lines in front of a text come before the lines of the text. */
  lemma SplitAfter(lines: seq<seq<byte>>, content: seq<byte>)
    requires forall k :: 0 <= k < |lines| ==> !HasCRLF(lines[k])
    ensures var (buffered, rest) := SplitLines(content);
            SplitLines(JoinLines(lines, content)) == (lines + buffered, rest)
  {
    var (buffered, rest) := SplitLines(content);
    SplitIsPlainJoin(content);
    var all := lines + buffered;
    assert Terminated(all) == Terminated(lines) + Terminated(buffered);
    FlattenConcat(Terminated(lines), Terminated(buffered));
    Associative(Flatten(Terminated(lines)), Flatten(Terminated(buffered)), rest);
    assert JoinLines(all, rest) == JoinLines(lines, content);
    PlainJoinSplits(all, rest);
  }

  /** However the stream is cut into chunks and however taking lines is interleaved with
      its arrival: the lines taken, one per TakeLine, followed by the lines still in the
      buffer, are the lines of everything that arrived, and the unfinished rest is the same. */
  lemma ChunkIndependent(steps: seq<Step>)
    requires Runs(Session(Fresh(), [], []), steps)
    ensures var x := Run(Session(Fresh(), [], []), steps);
            var (buffered, rest) := SplitLines(x.buffer.content);
            && |x.lines| == Takes(steps)
            && SplitLines(Arrivals(steps)) == (x.lines + buffered, rest)
            && (!Enabled(x, TakeLine) ==> SplitLines(Arrivals(steps)) == (x.lines, x.buffer.content))
  {
    var start := Session(Fresh(), [], []);
    assert Flatten(Terminated([])) == [];
    RunKeepsInv(start, steps);
    RunRecords(start, steps);
    assert [] + Arrivals(steps) == Arrivals(steps);
    var x := Run(start, steps);
    SplitAfter(x.lines, x.buffer.content);
    SplitIsPlainJoin(x.buffer.content);
    assert SplitLines(x.buffer.content).0 == [] ==> x.lines + SplitLines(x.buffer.content).0 == x.lines;
  }
}
