/** The telemetry gate: lines are cut out of a serial byte stream that arrives in arbitrary chunks. */
module LineGate {
  type Byte = n: nat | n < 256

  type Bytes = seq<Byte>

  const NEWLINE: Byte := 10

  /** White space of `bytes.strip`. */
  predicate IsBlankByte(b: Byte) {
    9 <= b <= 13 || b == 32
  }

  predicate IsBlank(line: Bytes) {
    forall i | 0 <= i < |line| :: IsBlankByte(line[i])
  }

  predicate NoNewline(line: Bytes) {
    NEWLINE !in line
  }

  function Concat(chunks: seq<Bytes>): Bytes {
    if chunks == [] then [] else Concat(chunks[..|chunks| - 1]) + chunks[|chunks| - 1]
  }

  /** Each line with its newline. */
  function Terminated(lines: seq<Bytes>): Bytes {
    if lines == [] then [] else Terminated(lines[..|lines| - 1]) + lines[|lines| - 1] + [NEWLINE]
  }

  /** `stream` consists of these lines, each ended by a newline, and an unterminated tail. */
  ghost predicate Splits(stream: Bytes, lines: seq<Bytes>, tail: Bytes) {
    && (forall i | 0 <= i < |lines| :: NoNewline(lines[i]))
    && NoNewline(tail)
    && stream == Terminated(lines) + tail
  }

  /** What the reader keeps: the decoded text of every line that is not blank. */
  function Kept(lines: seq<Bytes>, text: Bytes -> string): seq<string> {
    if lines == [] then []
    else Kept(lines[..|lines| - 1], text) + if IsBlank(lines[|lines| - 1]) then [] else [text(lines[|lines| - 1])]
  }

  /** These are the lines to keep of a stream, however it arrived. */
  ghost predicate KeptOf(stream: Bytes, text: Bytes -> string, kept: seq<string>) {
    exists lines: seq<Bytes>, tail: Bytes :: Splits(stream, lines, tail) && kept == Kept(lines, text)
  }

  /** Position of the first newline, or the length. */
  function FirstNewline(buf: Bytes): (n: nat)
    ensures n <= |buf| && NoNewline(buf[..n]) && (n < |buf| ==> buf[n] == NEWLINE)
  {
    if buf == [] || buf[0] == NEWLINE then 0
    else
      var n := FirstNewline(buf[1..]);
      assert buf[..n + 1] == [buf[0]] + buf[1..][..n];
      n + 1
  }

  /** Cuts off the front of the buffer every line that is complete. */
  method CutLines(buffer: Bytes, text: Bytes -> string, before: seq<string>, ghost linesBefore: seq<Bytes>)
      returns (buf: Bytes, kept: seq<string>, ghost lines: seq<Bytes>)
    requires (forall i | 0 <= i < |linesBefore| :: NoNewline(linesBefore[i])) && before == Kept(linesBefore, text)
    ensures Splits(Terminated(linesBefore) + buffer, lines, buf)
    ensures kept == Kept(lines, text)
  {
    buf, kept, lines := buffer, before, linesBefore;
    while NEWLINE in buf
      invariant Terminated(linesBefore) + buffer == Terminated(lines) + buf
      invariant forall i | 0 <= i < |lines| :: NoNewline(lines[i])
      invariant kept == Kept(lines, text)
      decreases |buf|
    {
      var cut := FirstNewline(buf);
      var line := buf[..cut];
      LineCut(lines, buf, cut);
      assert (lines + [line])[..|lines|] == lines;
      buf := buf[cut + 1..];
      if !IsBlank(line) {
        kept := kept + [text(line)];
      }
      lines := lines + [line];
    }
  }

  lemma LineCut(lines: seq<Bytes>, buf: Bytes, cut: nat)
    requires cut < |buf| && buf[cut] == NEWLINE
    ensures Terminated(lines) + buf == Terminated(lines + [buf[..cut]]) + buf[cut + 1..]
  {
    assert (lines + [buf[..cut]])[..|lines|] == lines;
    assert buf == buf[..cut] + [NEWLINE] + buf[cut + 1..];
  }

  /** The reading loop: `chunks` is what the port delivered before the deadline, `text` decodes and
      strips a line. */
  method ReadLines(chunks: seq<Bytes>, text: Bytes -> string) returns (kept: seq<string>)
    ensures KeptOf(Concat(chunks), text, kept)
  {
    kept := [];
    ghost var lines: seq<Bytes> := [];
    var buf: Bytes := [];
    for n := 0 to |chunks|
      invariant Splits(Concat(chunks[..n]), lines, buf)
      invariant kept == Kept(lines, text)
    {
      var chunk := chunks[n];
      assert chunks[..n + 1][..n] == chunks[..n];
      if chunk != [] {
        assert Concat(chunks[..n + 1]) == Terminated(lines) + (buf + chunk);
        buf, kept, lines := CutLines(buf + chunk, text, kept, lines);
      }
    }
    assert chunks[..|chunks|] == chunks;
  }

  lemma {:induction false} TerminatedAppend(a: seq<Bytes>, b: seq<Bytes>)
    ensures Terminated(a + b) == Terminated(a) + Terminated(b)
  {
    if b == [] {
      assert a + b == a;
    } else {
      assert (a + b)[..|a + b| - 1] == a + b[..|b| - 1];
      TerminatedAppend(a, b[..|b| - 1]);
    }
  }

  lemma {:induction false} FirstLineIs(lines: seq<Bytes>, tail: Bytes)
    requires lines != []
    ensures Terminated(lines) + tail == lines[0] + [NEWLINE] + (Terminated(lines[1..]) + tail)
  {
    assert lines == [lines[0]] + lines[1..];
    TerminatedAppend([lines[0]], lines[1..]);
    assert Terminated([lines[0]]) == lines[0] + [NEWLINE];
  }

  lemma SameHead(a: Bytes, x: Bytes, b: Bytes, y: Bytes)
    requires NoNewline(a) && NoNewline(b) && a + [NEWLINE] + x == b + [NEWLINE] + y
    ensures a == b && x == y
  {
    var s := a + [NEWLINE] + x;
    assert s[|a|] == NEWLINE && s[|b|] == NEWLINE;
    assert forall i | 0 <= i < |a| :: s[i] == a[i];
    assert forall i | 0 <= i < |b| :: s[i] == b[i];
    assert |a| == |b|;
    assert a == s[..|a|] && b == s[..|b|];
    assert x == s[|a| + 1..] && y == s[|b| + 1..];
  }

  /** A stream splits into lines and tail in one way only. */
  lemma {:induction false} SplitIsUnique(stream: Bytes, a: seq<Bytes>, x: Bytes, b: seq<Bytes>, y: Bytes)
    requires Splits(stream, a, x) && Splits(stream, b, y)
    ensures a == b && x == y
    decreases |a|
  {
    if a == [] || b == [] {
      NewlineInTerminated(a, x);
      NewlineInTerminated(b, y);
    } else {
      FirstLineIs(a, x);
      FirstLineIs(b, y);
      SameHead(a[0], Terminated(a[1..]) + x, b[0], Terminated(b[1..]) + y);
      SplitIsUnique(Terminated(a[1..]) + x, a[1..], x, b[1..], y);
    }
  }

  lemma NewlineInTerminated(lines: seq<Bytes>, tail: Bytes)
    ensures lines != [] ==> NEWLINE in Terminated(lines) + tail
    ensures lines == [] ==> Terminated(lines) + tail == tail
  {
    if lines != [] {
      var s := Terminated(lines);
      assert s[|s| - 1] == NEWLINE && (s + tail)[|s| - 1] == NEWLINE;
    }
  }

  /** However a stream is cut into chunks, the same lines are kept in the same order. */
  lemma ChunksDoNotMatter(chunks: seq<Bytes>, chunks': seq<Bytes>, text: Bytes -> string, kept: seq<string>, kept': seq<string>)
    requires Concat(chunks) == Concat(chunks')
    requires KeptOf(Concat(chunks), text, kept) && KeptOf(Concat(chunks'), text, kept')
    ensures kept == kept'
  {
    var lines, tail :| Splits(Concat(chunks), lines, tail) && kept == Kept(lines, text);
    var lines', tail' :| Splits(Concat(chunks), lines', tail') && kept' == Kept(lines', text);
    SplitIsUnique(Concat(chunks), lines, tail, lines', tail');
  }

  lemma {:induction false} KeptAppend(a: seq<Bytes>, b: seq<Bytes>, text: Bytes -> string)
    ensures Kept(a + b, text) == Kept(a, text) + Kept(b, text)
  {
    if b == [] {
      assert a + b == a;
    } else {
      assert (a + b)[..|a + b| - 1] == a + b[..|b| - 1];
      KeptAppend(a, b[..|b| - 1], text);
    }
  }

  /** A longer window only adds lines at the end: what was kept stays kept. */
  lemma LongerWindowExtends(stream: Bytes, more: Bytes, text: Bytes -> string, kept: seq<string>, kept': seq<string>)
    requires KeptOf(stream, text, kept) && KeptOf(stream + more, text, kept')
    ensures kept <= kept'
  {
    var lines, tail :| Splits(stream, lines, tail) && kept == Kept(lines, text);
    var lines', tail' :| Splits(stream + more, lines', tail') && kept' == Kept(lines', text);
    Prefix(lines, tail + more, lines', tail');
    var rest := lines'[|lines|..];
    assert lines' == lines + rest;
    KeptAppend(lines, rest, text);
  }

  lemma {:induction false} Prefix(lines: seq<Bytes>, rest: Bytes, lines': seq<Bytes>, tail': Bytes)
    requires forall i | 0 <= i < |lines| :: NoNewline(lines[i])
    requires forall i | 0 <= i < |lines'| :: NoNewline(lines'[i])
    requires NoNewline(tail')
    requires Terminated(lines) + rest == Terminated(lines') + tail'
    ensures lines <= lines'
    decreases |lines|
  {
    if lines != [] {
      NewlineInTerminated(lines, rest);
      NewlineInTerminated(lines', tail');
      FirstLineIs(lines, rest);
      FirstLineIs(lines', tail');
      SameHead(lines[0], Terminated(lines[1..]) + rest, lines'[0], Terminated(lines'[1..]) + tail');
      Prefix(lines[1..], rest, lines'[1..], tail');
      assert lines == [lines[0]] + lines[1..] && lines' == [lines'[0]] + lines'[1..];
    }
  }

  /** What is kept, by the bytes: nothing of a stream without a newline; of any other its first line, unless
      all its bytes are white space, and then what is kept of the rest. */
  lemma KeptByLines(line: Bytes, rest: Bytes, text: Bytes -> string, kept: seq<string>, kept': seq<string>)
    requires 10 !in line && KeptOf(line + [10] + rest, text, kept) && KeptOf(rest, text, kept')
    ensures kept == if forall b | b in line :: WhiteSpace(b) then kept' else [text(line)] + kept'
  {
    var lines, tail :| Splits(line + [10] + rest, lines, tail) && kept == Kept(lines, text);
    var lines', tail' :| Splits(rest, lines', tail') && kept' == Kept(lines', text);
    var all := [line] + lines';
    FirstLineIs(all, tail');
    assert all[1..] == lines';
    SplitIsUnique(line + [10] + rest, lines, tail, all, tail');
    KeptAppend([line], lines', text);
    KeptOne(line, text);
  }

  lemma KeptOne(line: Bytes, text: Bytes -> string)
    ensures Kept([line], text) == if forall b | b in line :: WhiteSpace(b) then [] else [text(line)]
  {
    assert [line][..0] == [] && Kept([], text) == [];
    assert forall i | 0 <= i < |line| :: line[i] in line;
    assert forall b: Byte :: WhiteSpace(b) <==> IsBlankByte(b);
  }

  /** Tab, line feed, vertical tab, form feed, carriage return and blank. */
  predicate WhiteSpace(b: Byte) {
    b in {9, 10, 11, 12, 13, 32}
  }

  lemma UnterminatedKeepsNothing(tail: Bytes, text: Bytes -> string, kept: seq<string>)
    requires 10 !in tail && KeptOf(tail, text, kept)
    ensures kept == []
  {
    var lines, rest :| Splits(tail, lines, rest) && kept == Kept(lines, text);
    NewlineInTerminated(lines, rest);
  }

  // ----- the gate

  function Matching(lines: seq<string>, matches: string -> bool): seq<string> {
    if lines == [] then []
    else Matching(lines[..|lines| - 1], matches) + if matches(lines[|lines| - 1]) then [lines[|lines| - 1]] else []
  }

  datatype GateResult = Passed(matched: seq<string>) | Failed(count: nat)

  function Gate(lines: seq<string>, matches: string -> bool, minLines: int): GateResult {
    var matched := Matching(lines, matches);
    if |matched| < minLines then Failed(|matched|) else Passed(matched)
  }

  /** The gate counts the lines that match, each in its place: it passes exactly when there are enough, and
      hands over these lines. */
  lemma GateCounts(front: seq<string>, line: string, back: seq<string>, matches: string -> bool, minLines: int)
    ensures var all := front + [line] + back; var counted := if matches(line) then [line] else [];
            && Matching([], matches) == []
            && Matching(all, matches) == Matching(front, matches) + counted + Matching(back, matches)
            && (Gate(all, matches, minLines).Passed? <==> |Matching(all, matches)| >= minLines)
            && (Gate(all, matches, minLines).Passed? ==> Gate(all, matches, minLines).matched == Matching(all, matches))
  {
    MatchingAppend(front + [line], back, matches);
    MatchingAppend(front, [line], matches);
    assert [line][..0] == [];
  }

  lemma {:induction false} MatchingAppend(a: seq<string>, b: seq<string>, matches: string -> bool)
    ensures Matching(a + b, matches) == Matching(a, matches) + Matching(b, matches)
  {
    if b == [] {
      assert a + b == a;
    } else {
      assert (a + b)[..|a + b| - 1] == a + b[..|b| - 1];
      MatchingAppend(a, b[..|b| - 1], matches);
    }
  }

  /** A device that passes the gate in some window passes it in every longer one, and no choice of
      chunks changes the outcome. */
  lemma PassingIsStable(stream: Bytes, more: Bytes, text: Bytes -> string, kept: seq<string>, kept': seq<string>,
                        matches: string -> bool, minLines: int)
    requires KeptOf(stream, text, kept) && KeptOf(stream + more, text, kept')
    requires Gate(kept, matches, minLines).Passed?
    ensures Gate(kept', matches, minLines).Passed?
    ensures Gate(kept, matches, minLines).matched <= Gate(kept', matches, minLines).matched
  {
    LongerWindowExtends(stream, more, text, kept, kept');
    assert kept' == kept + kept'[|kept|..];
    MatchingAppend(kept, kept'[|kept|..], matches);
  }
}
