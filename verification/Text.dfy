/** The string operations of the bench tools: the whitespace and line-break classes of
    Python's `str`, stripping, line splitting and substring search. */
module Text {

  /** Characters at which `str.splitlines` ends a line. */
  predicate IsLineBreak(c: char) {
    var k := c as int;
    0x0A <= k <= 0x0D || 0x1C <= k <= 0x1E || k == 0x85 || k == 0x2028 || k == 0x2029
  }

  /** Characters removed by `str.strip` and separating words for `str.split`. */
  predicate IsSpace(c: char) {
    var k := c as int;
    || 0x09 <= k <= 0x0D || 0x1C <= k <= 0x20 || k == 0x85 || k == 0xA0 || k == 0x1680
    || 0x2000 <= k <= 0x200A || k == 0x2028 || k == 0x2029 || k == 0x202F || k == 0x205F || k == 0x3000
  }

  function LeftStrip(s: string): string {
    if s != [] && IsSpace(s[0]) then LeftStrip(s[1..]) else s
  }

  function RightStrip(s: string): string {
    if s != [] && IsSpace(s[|s| - 1]) then RightStrip(s[..|s| - 1]) else s
  }

  function Strip(s: string): string {
    RightStrip(LeftStrip(s))
  }

  /** `str.lower`, on ASCII letters. */
  function Lower(s: string): string {
    seq(|s|, i requires 0 <= i < |s| => if 'A' <= s[i] <= 'Z' then (s[i] as int + 32) as char else s[i])
  }

  /** Neither end of `s` is white space. */
  predicate IsStripped(s: string) {
    s == [] || (!IsSpace(s[0]) && !IsSpace(s[|s| - 1]))
  }

  predicate NoLineBreak(s: string) {
    forall i | 0 <= i < |s| :: !IsLineBreak(s[i])
  }

  /** Length of the part of `s` before the first character satisfying `p`. */
  function Before(s: string, p: char -> bool): (n: nat)
    ensures n <= |s|
    ensures forall i | 0 <= i < n :: !p(s[i])
    ensures n < |s| ==> p(s[n])
  {
    if s == [] || p(s[0]) then 0 else 1 + Before(s[1..], p)
  }

  /** `str.splitlines`: "\r\n" is one break and a trailing break starts no new line. */
  function SplitLines(s: string): (lines: seq<string>)
    ensures forall i | 0 <= i < |lines| :: NoLineBreak(lines[i])
    decreases |s|
  {
    if s == [] then []
    else
      var n := Before(s, IsLineBreak);
      if n == |s| then [s]
      else
        var after := if s[n] == '\r' && n + 1 < |s| && s[n + 1] == '\n' then n + 2 else n + 1;
        [s[..n]] + SplitLines(s[after..])
  }

  lemma BeforeBreak(s: string, n: nat)
    requires n < |s| && NoLineBreak(s[..n]) && IsLineBreak(s[n])
    ensures Before(s, IsLineBreak) == n
  {
    assert forall i | 0 <= i < n :: s[..n][i] == s[i];
  }

  /** A line ends at a line feed, at a carriage return and at both together; what follows splits on its own. */
  lemma LinesEndAtBreaks(line: string, ending: string, rest: string)
    requires NoLineBreak(line)
    requires ending == ['\n'] || ending == ['\r', '\n'] || (ending == ['\r'] && (rest == "" || rest[0] != '\n'))
    ensures SplitLines(line + ending + rest) == [line] + SplitLines(rest)
  {
    var (s, n) := (line + ending + rest, |line|);
    assert s[..n] == line && s[n] == ending[0];
    BeforeBreak(s, n);
    assert |ending| == 1 && rest != "" ==> s[n + 1] == rest[0];
    assert |ending| == 2 ==> s[n + 1] == '\n';
    assert s[n + |ending|..] == rest;
  }

  function Join(lines: seq<string>, sep: string): string {
    if lines == [] then ""
    else if |lines| == 1 then lines[0]
    else lines[0] + sep + Join(lines[1..], sep)
  }

  predicate StartsWith(s: string, prefix: string) {
    prefix <= s
  }

  predicate EndsWith(s: string, suffix: string) {
    |suffix| <= |s| && s[|s| - |suffix|..] == suffix
  }

  predicate OccursAt(s: string, pat: string, i: int) {
    0 <= i <= i + |pat| <= |s| && s[i..i + |pat|] == pat
  }

  /** Python's `pat in s`. */
  predicate Contains(s: string, pat: string) {
    exists i | 0 <= i <= |s| - |pat| :: OccursAt(s, pat, i)
  }

  lemma {:induction false} LeftStripEnds(s: string)
    ensures LeftStrip(s) == [] || !IsSpace(LeftStrip(s)[0])
    ensures |LeftStrip(s)| <= |s| && LeftStrip(s) == s[|s| - |LeftStrip(s)|..]
  {
    if s != [] && IsSpace(s[0]) {
      LeftStripEnds(s[1..]);
    }
  }

  lemma {:induction false} RightStripEnds(s: string)
    ensures RightStrip(s) <= s
    ensures RightStrip(s) == [] || !IsSpace(RightStrip(s)[|RightStrip(s)| - 1])
  {
    if s != [] && IsSpace(s[|s| - 1]) {
      RightStripEnds(s[..|s| - 1]);
    }
  }

  lemma StripIsStripped(s: string)
    ensures IsStripped(Strip(s))
    ensures forall c | c in Strip(s) :: c in s
  {
    LeftStripEnds(s);
    RightStripEnds(LeftStrip(s));
  }

  /** Stripping changes nothing exactly when there is nothing to strip. */
  lemma StripFixpoint(s: string)
    ensures Strip(s) == s <==> IsStripped(s)
  {
    StripIsStripped(s);
  }

  /** A pattern without the character `sep` never straddles an occurrence of it. */
  lemma ContainsAcross(x: string, sep: char, y: string, pat: string)
    requires sep !in pat && pat != []
    ensures Contains(x + [sep] + y, pat) <==> Contains(x, pat) || Contains(y, pat)
  {
    var s := x + [sep] + y;
    if Contains(s, pat) {
      var i :| 0 <= i <= |s| - |pat| && OccursAt(s, pat, i);
      assert s[|x|] == sep && s[i..i + |pat|] == pat;
      assert forall k | 0 <= k < |pat| :: s[i + k] == pat[k] != sep;
      if i <= |x| < i + |pat| {
        assert false;
      } else if i + |pat| <= |x| {
        assert OccursAt(x, pat, i) by { assert x[i..i + |pat|] == s[i..i + |pat|]; }
      } else {
        var j := i - |x| - 1;
        assert OccursAt(y, pat, j) by { assert y[j..j + |pat|] == s[i..i + |pat|]; }
      }
    }
    if Contains(x, pat) {
      var i :| 0 <= i <= |x| - |pat| && OccursAt(x, pat, i);
      assert OccursAt(s, pat, i) by { assert x[i..i + |pat|] == s[i..i + |pat|]; }
    }
    if Contains(y, pat) {
      var j :| 0 <= j <= |y| - |pat| && OccursAt(y, pat, j);
      var i := j + |x| + 1;
      assert OccursAt(s, pat, i) by { assert y[j..j + |pat|] == s[i..i + |pat|]; }
    }
  }
}
