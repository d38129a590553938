/** Holder records: the `key: value` text that an exclusive lock holder publishes in the
    lock file, and the parser that later shows it to whoever is refused the lock. */
module HolderRecord {
  import opened Text

  /** A Python dict as its items in insertion order. */
  type Items = seq<(string, string)>

  ghost predicate DistinctKeys(items: Items) {
    forall i, j | 0 <= i < j < |items| :: items[i].0 != items[j].0
  }

  function ToMap(items: Items): map<string, string> {
    Put(map[], items)
  }

  function Put(m: map<string, string>, items: Items): map<string, string>
    decreases items
  {
    if items == [] then m else Put(m[items[0].0 := items[0].1], items[1..])
  }

  function Line(item: (string, string)): string {
    item.0 + ": " + item.1
  }

  function Lines(items: Items): seq<string> {
    seq(|items|, i requires 0 <= i < |items| => Line(items[i]))
  }

  /** The text written into the lock file. */
  function Render(items: Items): string {
    Join(Lines(items), "\n")
  }

  /** One line of the file: its item, or nothing when it has no colon. */
  function ParseLine(line: string): Items {
    var n := Before(line, c => c == ':');
    if n == |line| then [] else [(Strip(line[..n]), Strip(line[n + 1..]))]
  }

  function ParseLines(lines: seq<string>): Items {
    if lines == [] then [] else ParseLine(lines[0]) + ParseLines(lines[1..])
  }

  function Parse(text: string): map<string, string> {
    ToMap(ParseLines(SplitLines(text)))
  }

  /** What a key and a value must look like to survive the text form. */
  predicate CleanKey(k: string) {
    IsStripped(k) && NoLineBreak(k) && ':' !in k
  }

  predicate CleanValue(v: string) {
    IsStripped(v) && NoLineBreak(v)
  }

  ghost predicate Clean(items: Items) {
    forall i | 0 <= i < |items| :: CleanKey(items[i].0) && CleanValue(items[i].1)
  }

  lemma PutAppend(m: map<string, string>, a: Items, b: Items)
    ensures Put(m, a + b) == Put(Put(m, a), b)
    decreases a
  {
    if a == [] {
      assert a + b == b;
    } else {
      assert (a + b)[1..] == a[1..] + b;
      PutAppend(m[a[0].0 := a[0].1], a[1..], b);
    }
  }

  lemma ParseLinesAppend(a: seq<string>, b: seq<string>)
    ensures ParseLines(a + b) == ParseLines(a) + ParseLines(b)
  {
    if a == [] {
      assert a + b == b;
    } else {
      assert (a + b)[1..] == a[1..] + b;
      ParseLinesAppend(a[1..], b);
    }
  }

  lemma OneMoreLine(lines: seq<string>, i: nat)
    requires i < |lines|
    ensures ToMap(ParseLines(lines[..i + 1])) == Put(ToMap(ParseLines(lines[..i])), ParseLine(lines[i]))
  {
    assert lines[..i + 1] == lines[..i] + [lines[i]];
    ParseLinesAppend(lines[..i], [lines[i]]);
    assert ParseLines([lines[i]]) == ParseLine(lines[i]);
    PutAppend(map[], ParseLines(lines[..i]), ParseLine(lines[i]));
  }

  /** The reader of a lock file: a missing or unreadable file gives no holder. */
  method ReadHolder(file: string, readable: bool) returns (data: map<string, string>)
    ensures data == if readable then Parse(file) else map[]
  {
    data := map[];
    if readable {
      var lines := SplitLines(file);
      for i := 0 to |lines|
        invariant data == ToMap(ParseLines(lines[..i]))
      {
        OneMoreLine(lines, i);
        var n := Before(lines[i], c => c == ':');
        if n < |lines[i]| {
          data := data[Strip(lines[i][..n]) := Strip(lines[i][n + 1..])];
        }
      }
      assert lines[..|lines|] == lines;
    }
  }

  /** A clean item printed on one line is read back exactly. */
  lemma LineRoundTrip(item: (string, string))
    requires CleanKey(item.0) && CleanValue(item.1)
    ensures NoLineBreak(Line(item)) && Line(item) != []
    ensures ParseLine(Line(item)) == [item]
  {
    var line := Line(item);
    var n := Before(line, c => c == ':');
    assert line[|item.0|] == ':' && forall i | 0 <= i < |item.0| :: line[i] == item.0[i] != ':';
    assert n == |item.0|;
    assert line[..n] == item.0;
    StripFixpoint(item.0);
    assert line[n + 1..] == " " + item.1;
    assert LeftStrip(" " + item.1) == LeftStrip(item.1) == item.1 by {
      assert (" " + item.1)[1..] == item.1;
    }
    StripFixpoint(item.1);
  }

  lemma {:induction false} SplitJoined(lines: seq<string>)
    requires forall i | 0 <= i < |lines| :: NoLineBreak(lines[i]) && lines[i] != []
    ensures SplitLines(Join(lines, "\n")) == lines
  {
    if lines == [] {
    } else if |lines| == 1 {
      assert Before(lines[0], IsLineBreak) == |lines[0]|;
    } else {
      var text := Join(lines, "\n");
      var rest := Join(lines[1..], "\n");
      var n := Before(text, IsLineBreak);
      assert text == lines[0] + "\n" + rest;
      assert text[|lines[0]|] == '\n' && forall i | 0 <= i < |lines[0]| :: text[i] == lines[0][i] && !IsLineBreak(text[i]);
      assert n == |lines[0]|;
      assert text[..n] == lines[0] && text[n + 1..] == rest;
      SplitJoined(lines[1..]);
    }
  }

  lemma {:induction false} ParseRendered(items: Items)
    requires Clean(items)
    ensures ParseLines(Lines(items)) == items
  {
    if items != [] {
      assert Lines(items)[1..] == Lines(items[1..]);
      LineRoundTrip(items[0]);
      ParseRendered(items[1..]);
    }
  }

  /** Everything the parser returns is clean, whatever the file holds. */
  lemma {:induction false} ParsedIsClean(lines: seq<string>)
    requires forall i | 0 <= i < |lines| :: NoLineBreak(lines[i])
    ensures Clean(ParseLines(lines))
  {
    if lines != [] {
      ParsedIsClean(lines[1..]);
      ParsedLineIsClean(lines[0]);
    }
  }

  lemma ParsedLineIsClean(line: string)
    requires NoLineBreak(line)
    ensures Clean(ParseLine(line))
  {
    var n := Before(line, c => c == ':');
    if n < |line| {
      var (k, v) := (line[..n], line[n + 1..]);
      StripIsStripped(k);
      StripIsStripped(v);
      assert forall c | c in k || c in v :: c in line;
      assert forall c | c in line :: !IsLineBreak(c);
      assert ':' !in k;
    }
  }

  lemma {:induction false} PutEntries(m: map<string, string>, items: Items, k: string)
    ensures k in Put(m, items) ==> (k in m && Put(m, items)[k] == m[k]) || (k, Put(m, items)[k]) in items
    ensures k in m || (exists i :: 0 <= i < |items| && items[i].0 == k) ==> k in Put(m, items)
    decreases items
  {
    if items != [] {
      PutEntries(m[items[0].0 := items[0].1], items[1..], k);
    }
  }

  lemma DistinctEntry(items: Items, i: nat)
    requires DistinctKeys(items) && i < |items|
    ensures items[i].0 in ToMap(items) && ToMap(items)[items[i].0] == items[i].1
  {
    PutEntries(map[], items, items[i].0);
  }

  /** A published record is read back unchanged exactly when its keys and values are clean:
      values may hold colons, as time stamps do, but no line break and no outer white space. */
  lemma RoundTrip(items: Items)
    requires DistinctKeys(items)
    ensures Parse(Render(items)) == ToMap(items) <==> Clean(items)
  {
    if Clean(items) {
      forall i | 0 <= i < |items| ensures NoLineBreak(Lines(items)[i]) && Lines(items)[i] != [] {
        LineRoundTrip(items[i]);
      }
      SplitJoined(Lines(items));
      ParseRendered(items);
    }
    if Parse(Render(items)) == ToMap(items) {
      var parsed := ParseLines(SplitLines(Render(items)));
      ParsedIsClean(SplitLines(Render(items)));
      forall i | 0 <= i < |items| ensures CleanKey(items[i].0) && CleanValue(items[i].1) {
        DistinctEntry(items, i);
        PutEntries(map[], parsed, items[i].0);
        assert items[i] in parsed;
      }
    }
  }

  /** `value or "-"`. */
  function OrDash(s: string): string {
    if s == "" then "-" else s
  }

  /** The record of one acquisition of the pcscd coupling domain. */
  function Holder(role: string, session: string, pid: string, project: string, reason: string, since: string): (items: Items)
  {
    [("role", role), ("session", session), ("pid", pid), ("project", OrDash(project)), ("reason", OrDash(reason)), ("since", since)]
  }

  lemma ValueRoundTrip(items: Items)
    requires DistinctKeys(items) && forall i | 0 <= i < |items| :: CleanKey(items[i].0)
    ensures Parse(Render(items)) == ToMap(items) <==> forall i | 0 <= i < |items| :: CleanValue(items[i].1)
  {
    RoundTrip(items);
  }

  /** The record of an acquisition is read back exactly when each of the texts taken from the
      caller and from the host is one stripped line. */
  lemma HolderRoundTrip(role: string, session: string, pid: string, project: string, reason: string, since: string)
    ensures var items := Holder(role, session, pid, project, reason, since);
            Parse(Render(items)) == ToMap(items) <==>
            CleanValue(role) && CleanValue(session) && CleanValue(pid) &&
            CleanValue(project) && CleanValue(reason) && CleanValue(since)
  {
    var items := Holder(role, session, pid, project, reason, since);
    HolderKeys(items);
    ValueRoundTrip(items);
    SixValues(items);
    DashIsClean(project);
    DashIsClean(reason);
  }

  lemma DashIsClean(s: string)
    ensures CleanValue(OrDash(s)) <==> CleanValue(s)
  {
  }

  lemma SixValues(items: Items)
    requires |items| == 6
    ensures (forall i | 0 <= i < 6 :: CleanValue(items[i].1)) <==>
              CleanValue(items[0].1) && CleanValue(items[1].1) && CleanValue(items[2].1) &&
              CleanValue(items[3].1) && CleanValue(items[4].1) && CleanValue(items[5].1)
  {
  }

  lemma HolderKeys(items: Items)
    requires |items| == 6
    requires items[0].0 == "role" && items[1].0 == "session" && items[2].0 == "pid"
    requires items[3].0 == "project" && items[4].0 == "reason" && items[5].0 == "since"
    ensures DistinctKeys(items) && forall i | 0 <= i < |items| :: CleanKey(items[i].0)
  {
    assert forall i | 0 <= i < 6 :: |items[i].0| >= 3 && items[i].0[0] in "rsp" && items[i].0[1] in "oeir";
    assert items[0].0[1] == 'o' && items[1].0[1] == 'e' && items[2].0[1] == 'i';
    assert items[3].0[0] == 'p' && items[4].0[0] == 'r' && items[5].0[0] == 's';
    WordKey("role");
    WordKey("session");
    WordKey("pid");
    WordKey("project");
    WordKey("reason");
    WordKey("since");
  }

  lemma WordKey(k: string)
    requires forall i | 0 <= i < |k| :: 'a' <= k[i] <= 'z'
    ensures CleanKey(k)
  {
  }

  /** What a reader of a clean record finds under each key. */
  lemma HolderIsRead(role: string, session: string, pid: string, project: string, reason: string, since: string)
    requires CleanValue(role) && CleanValue(session) && CleanValue(pid) && CleanValue(project) && CleanValue(reason) && CleanValue(since)
    ensures var m := Parse(Render(Holder(role, session, pid, project, reason, since)));
            && m.Keys == {"role", "session", "pid", "project", "reason", "since"}
            && m["role"] == role && m["session"] == session && m["pid"] == pid
            && m["project"] == (if project == "" then "-" else project)
            && m["reason"] == (if reason == "" then "-" else reason)
            && m["since"] == since
  {
    var items := Holder(role, session, pid, project, reason, since);
    HolderRoundTrip(role, session, pid, project, reason, since);
    HolderKeys(items);
    SixEntries(items);
  }

  lemma SixEntries(items: Items)
    requires |items| == 6 && DistinctKeys(items)
    ensures forall i | 0 <= i < 6 :: items[i].0 in ToMap(items) && ToMap(items)[items[i].0] == items[i].1
    ensures ToMap(items).Keys == {items[0].0, items[1].0, items[2].0, items[3].0, items[4].0, items[5].0}
  {
    forall i | 0 <= i < 6
      ensures items[i].0 in ToMap(items) && ToMap(items)[items[i].0] == items[i].1
    {
      DistinctEntry(items, i);
    }
    forall k | k in ToMap(items)
      ensures k in {items[0].0, items[1].0, items[2].0, items[3].0, items[4].0, items[5].0}
    {
      PutEntries(map[], items, k);
    }
  }

  /** How a record looks in the file: a line for each item, key and value separated by a colon and a blank. */
  lemma RecordText(first: string, value: string, second: string, value': string)
    ensures Render([(first, value), (second, value')]) == first + ": " + value + "\n" + second + ": " + value'
  {
    var items := [(first, value), (second, value')];
    assert Lines(items) == [Line(items[0]), Line(items[1])];
    assert Lines(items)[1..] == [Line(items[1])];
    assert Join([Line(items[1])], "\n") == Line(items[1]);
    assert Join(Lines(items), "\n") == Line(items[0]) + "\n" + Line(items[1]);
  }

  /** What a reader makes of a file, line by line: a line without a colon says nothing; any other says what
      stands before and behind its first colon, unless a later line has the same key. */
  lemma LineByLine(line: string, rest: string)
    requires NoLineBreak(line)
    ensures ':' !in line ==> Parse(line + ['\n'] + rest) == Parse(rest)
    ensures forall n | 0 <= n < |line| && line[n] == ':' && ':' !in line[..n] ::
              Parse(line + ['\n'] + rest) == map[Strip(line[..n]) := Strip(line[n + 1..])] + Parse(rest)
    ensures Parse("") == map[]
  {
    LinesEndAtBreaks(line, ['\n'], rest);
    var lines := SplitLines(rest);
    assert ParseLines([line] + lines) == ParseLine(line) + ParseLines(lines);
    PutAppend(map[], ParseLine(line), ParseLines(lines));
    PutOver(ToMap(ParseLine(line)), ParseLines(lines));
    FirstColon(line);
  }

  lemma FirstColon(line: string)
    ensures ':' !in line ==> ParseLine(line) == []
    ensures forall n | 0 <= n < |line| && line[n] == ':' && ':' !in line[..n] ::
              ParseLine(line) == [(Strip(line[..n]), Strip(line[n + 1..]))]
  {
    var m := Before(line, c => c == ':');
    forall n | 0 <= n < |line| && line[n] == ':' && ':' !in line[..n]
      ensures m == n
    {
      assert forall i | 0 <= i < n :: line[..n][i] == line[i];
    }
  }

  lemma PutOver(m: map<string, string>, items: Items)
    ensures Put(m, items) == m + ToMap(items)
    decreases items
  {
    if items != [] {
      PutOver(m[items[0].0 := items[0].1], items[1..]);
      PutOver(map[items[0].0 := items[0].1], items[1..]);
    }
  }
}
