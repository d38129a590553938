/** Which labgrid places other lanes hold, read from the table printed by `labgrid-client who`. */
module Labgrid {
  import opened Text

  /** The client could not run, or ran with an exit code and an output. */
  datatype Reply = Unreachable | Answer(code: int, output: string)

  /** `str.split` without arguments. */
  function Words(s: string): (words: seq<string>)
    decreases |s|
  {
    var t := LeftStrip(s);
    if t == [] then []
    else
      LeftStripEnds(s);
      var n := Before(t, IsSpace);
      [t[..n]] + Words(t[n..])
  }

  predicate IsDelimiter(c: char) {
    c == '-' || c == '_' || c == '.'
  }

  /** The pieces between delimiters. */
  function Pieces(s: string): seq<string>
    decreases |s|
  {
    var n := Before(s, IsDelimiter);
    if n == |s| then [s] else [s[..n]] + Pieces(s[n + 1..])
  }

  predicate SharesLaneToken(project: string, place: string) {
    exists t | t in Pieces(project) :: |t| >= 3 && t in Pieces(place)
  }

  /** A stretch of `s` without delimiters that cannot be extended on either side. */
  ghost predicate IsBlock(s: string, i: int, j: int) {
    && 0 <= i <= j <= |s|
    && (forall k | i <= k < j :: s[k] != '-' && s[k] != '_' && s[k] != '.')
    && (i == 0 || s[i - 1] == '-' || s[i - 1] == '_' || s[i - 1] == '.')
    && (j == |s| || s[j] == '-' || s[j] == '_' || s[j] == '.')
  }

  ghost predicate HasBlock(s: string, t: string) {
    exists i, j :: IsBlock(s, i, j) && s[i..j] == t
  }

  lemma PushBlock(s: string, n: nat, t: string)
    requires n < |s| && IsDelimiter(s[n]) && HasBlock(s[n + 1..], t)
    ensures HasBlock(s, t)
  {
    var rest := s[n + 1..];
    var i, j :| IsBlock(rest, i, j) && rest[i..j] == t;
    assert forall k | 0 <= k < |rest| :: rest[k] == s[k + n + 1];
    assert forall k | i + n + 1 <= k < j + n + 1 :: s[k] == rest[k - n - 1];
    assert IsBlock(s, i + n + 1, j + n + 1) && s[i + n + 1..j + n + 1] == t;
  }

  lemma PullBlock(s: string, n: nat, t: string)
    requires n < |s| && IsDelimiter(s[n]) && (forall k | 0 <= k < n :: !IsDelimiter(s[k]))
    requires HasBlock(s, t)
    ensures t == s[..n] || HasBlock(s[n + 1..], t)
  {
    var rest := s[n + 1..];
    var i, j :| IsBlock(s, i, j) && s[i..j] == t;
    if i <= n {
      assert i == 0 && j == n;
    } else {
      assert forall k | 0 <= k < |rest| :: rest[k] == s[k + n + 1];
      assert IsBlock(rest, i - n - 1, j - n - 1) && rest[i - n - 1..j - n - 1] == t;
    }
  }

  lemma WholeBlock(s: string, t: string)
    requires forall k | 0 <= k < |s| :: !IsDelimiter(s[k])
    ensures HasBlock(s, t) <==> t == s
  {
    assert IsBlock(s, 0, |s|) && s[0..|s|] == s;
    if HasBlock(s, t) {
      var i, j :| IsBlock(s, i, j) && s[i..j] == t;
      assert i == 0 && j == |s|;
    }
  }

  lemma {:induction false} PiecesAreBlocks(s: string, t: string)
    ensures t in Pieces(s) <==> HasBlock(s, t)
    decreases |s|
  {
    var n := Before(s, IsDelimiter);
    if n == |s| {
      WholeBlock(s, t);
    } else {
      PiecesAreBlocks(s[n + 1..], t);
      assert IsBlock(s, 0, n) && s[0..n] == s[..n];
      if HasBlock(s[n + 1..], t) {
        PushBlock(s, n, t);
      }
      if HasBlock(s, t) {
        PullBlock(s, n, t);
      }
    }
  }

  /** Project and place share a lane exactly when the same stretch of three or more characters
      stands between delimiters (or ends) in both names. */
  lemma SharedLane(project: string, place: string)
    ensures SharesLaneToken(project, place) <==>
            exists t: string :: |t| >= 3 && HasBlock(project, t) && HasBlock(place, t)
    ensures SharesLaneToken(project, place) <==> SharesLaneToken(place, project)
  {
    forall t: string
      ensures t in Pieces(project) <==> HasBlock(project, t)
      ensures t in Pieces(place) <==> HasBlock(place, t)
    {
      PiecesAreBlocks(project, t);
      PiecesAreBlocks(place, t);
    }
  }

  /** A line of the table that names a place held by another lane. */
  predicate OtherRow(project: string, line: string) {
    && Strip(line) != ""
    && !StartsWith(LeftStrip(line), "User ")
    && |Words(line)| >= 3
    && !(project != "" && SharesLaneToken(project, Words(line)[2]))
  }

  function Rows(keep: string -> bool, lines: seq<string>): seq<string> {
    if lines == [] then [] else Rows(keep, lines[..|lines| - 1]) + Row(keep, lines[|lines| - 1])
  }

  function Row(keep: string -> bool, line: string): seq<string> {
    if keep(line) then [RightStrip(line)] else []
  }

  function OtherRows(project: string, lines: seq<string>): seq<string> {
    Rows(line => OtherRow(project, line), lines)
  }

  lemma RowsSnoc(keep: string -> bool, lines: seq<string>, i: nat)
    requires i < |lines|
    ensures Rows(keep, lines[..i + 1]) == Rows(keep, lines[..i]) + Row(keep, lines[i])
  {
    assert lines[..i + 1][..i] == lines[..i];
  }

  /** Nobody is reported exactly when no row of the table belongs to another lane. */
  lemma {:induction false} NobodyReported(project: string, lines: seq<string>)
    ensures OtherRows(project, lines) == [] <==> forall i | 0 <= i < |lines| :: !OtherRow(project, lines[i])
  {
    NoRows(line => OtherRow(project, line), lines);
  }

  lemma {:induction false} NoRows(keep: string -> bool, lines: seq<string>)
    ensures Rows(keep, lines) == [] <==> forall i | 0 <= i < |lines| :: !keep(lines[i])
  {
    if lines != [] {
      var rest := lines[..|lines| - 1];
      NoRows(keep, rest);
      assert forall i | 0 <= i < |rest| :: rest[i] == lines[i];
    }
  }

  /** The rows of other lanes, in order. A coordinator that cannot be reached, or fails, reports
      nobody: its outage must not block a restart. */
  method OtherHolders(project: string, reply: Reply) returns (others: seq<string>)
    ensures others == if reply.Answer? && reply.code == 0 then OtherRows(project, SplitLines(reply.output)) else []
  {
    if reply.Unreachable? || reply.code != 0 {
      return [];
    }
    var lines := SplitLines(reply.output);
    others := [];
    ghost var keep := line => OtherRow(project, line);
    for i := 0 to |lines|
      invariant others == Rows(keep, lines[..i])
    {
      var line := lines[i];
      RowsSnoc(keep, lines, i);
      if Strip(line) == "" || StartsWith(LeftStrip(line), "User ") {
        continue;
      }
      var parts := Words(line);
      if |parts| < 3 {
        continue;
      }
      var place := parts[2];
      if project != "" && SharesLaneToken(project, place) {
        continue;
      }
      others := others + [RightStrip(line)];
    }
    assert lines[..|lines|] == lines;
    assert OtherRows(project, lines) == Rows(keep, lines);
  }

  // ----- the table, by its columns

  predicate NoSpace(s: string) {
    s != [] && forall i | 0 <= i < |s| :: !IsSpace(s[i])
  }

  predicate AllSpace(s: string) {
    s != [] && forall i | 0 <= i < |s| :: IsSpace(s[i])
  }

  lemma {:induction false} SkipsSpace(gap: string, s: string)
    requires gap == [] || AllSpace(gap)
    ensures LeftStrip(gap + s) == LeftStrip(s)
  {
    if gap == [] {
      assert gap + s == s;
    } else {
      assert (gap + s)[1..] == gap[1..] + s;
      SkipsSpace(gap[1..], s);
    }
  }

  /** The first column, and the words of what follows it. */
  lemma FirstWord(gap: string, word: string, rest: string)
    requires (gap == [] || AllSpace(gap)) && NoSpace(word) && (rest == [] || IsSpace(rest[0]))
    ensures Words(gap + (word + rest)) == [word] + Words(rest)
  {
    SkipsSpace(gap, word + rest);
    var t := word + rest;
    assert t[0] == word[0] && LeftStrip(t) == t;
    var n := Before(t, IsSpace);
    assert forall i | 0 <= i < |word| :: t[i] == word[i];
    assert rest != [] ==> t[|word|] == rest[0];
    assert n == |word|;
    assert t[..n] == word && t[n..] == rest;
  }

  function Columns(user: string, gap: string, host: string, gap': string, place: string, rest: string): string {
    user + (gap + (host + (gap' + (place + rest))))
  }

  /** A row with a user, a host and a place belongs to another lane exactly when it is not the header,
      which begins with "User ", and project and place do not have a stretch of three or more characters
      between delimiters in common; without a project every row does. */
  lemma RowOfAnotherLane(project: string, user: string, gap: string, host: string, gap': string, place: string, rest: string)
    requires NoSpace(user) && NoSpace(host) && NoSpace(place) && AllSpace(gap) && AllSpace(gap') && (rest == [] || IsSpace(rest[0]))
    ensures OtherRow(project, Columns(user, gap, host, gap', place, rest)) <==>
            && !(user == "User" && gap[0] == ' ')
            && (project == "" || !exists t: string :: |t| >= 3 && HasBlock(project, t) && HasBlock(place, t))
  {
    var line := Columns(user, gap, host, gap', place, rest);
    FirstWord([], user, gap + (host + (gap' + (place + rest))));
    FirstWord(gap, host, gap' + (place + rest));
    FirstWord(gap', place, rest);
    assert [] + line == line;
    assert Words(line)[2] == place;
    SharedLane(project, place);
    assert line[0] == user[0] && LeftStrip(line) == line;
    RowIsNotBlank(line);
    HeaderStart(user, gap, host + (gap' + (place + rest)));
  }

  lemma RowIsNotBlank(line: string)
    requires line != [] && LeftStrip(line) == line && !IsSpace(line[0])
    ensures Strip(line) != ""
  {
    KeepsFirst(line);
  }

  lemma {:induction false} KeepsFirst(s: string)
    requires s != [] && !IsSpace(s[0])
    ensures RightStrip(s) != [] && RightStrip(s)[0] == s[0]
  {
    if IsSpace(s[|s| - 1]) {
      KeepsFirst(s[..|s| - 1]);
    }
  }

  lemma HeaderStart(user: string, gap: string, rest: string)
    requires NoSpace(user) && AllSpace(gap)
    ensures StartsWith(user + (gap + rest), "User ") <==> user == "User" && gap[0] == ' '
  {
    var line := user + (gap + rest);
    assert line[|user|] == gap[0] && forall i | 0 <= i < |user| :: line[i] == user[i];
    assert IsSpace(' ') && !IsSpace('U') && !IsSpace('s') && !IsSpace('e') && !IsSpace('r');
    if StartsWith(line, "User ") {
      assert line[..5] == "User ";
      assert line[0] == 'U' && line[1] == 's' && line[2] == 'e' && line[3] == 'r' && line[4] == ' ';
      assert |user| == 4;
      assert user == "User";
    }
    if user == "User" && gap[0] == ' ' {
      assert line[..5] == "User ";
    }
  }

  /** The rows reported are those of other lanes, without white space at their end, and no others. */
  lemma {:induction false} RowsExactly(keep: string -> bool, lines: seq<string>, row: string)
    ensures row in Rows(keep, lines) <==> exists i :: 0 <= i < |lines| && keep(lines[i]) && row == RightStrip(lines[i])
  {
    if lines != [] {
      var init := lines[..|lines| - 1];
      RowsExactly(keep, init, row);
      assert forall i | 0 <= i < |init| :: init[i] == lines[i];
      if i :| 0 <= i < |lines| && keep(lines[i]) && row == RightStrip(lines[i]) {
        assert i < |init| ==> keep(init[i]) && row == RightStrip(init[i]);
      }
    }
  }
}
