/** The ar-to-tar repacking of packages: the parser of the ar format (System V ABI edition 4.1,
    chapter 7, "Archive File"), a printer that it undoes, and the rewriting of the file. */
module ArArchive {
  import opened Options
  import opened Text
  import opened Decimal

  type Byte = n: nat | n < 256

  type Bytes = seq<Byte>

  const MAGIC: Bytes := [33, 60, 97, 114, 99, 104, 62, 10]
  const SPACE: Byte := 32

  /** ASCII decoding with replacement of every other byte. */
  function Decode(bytes: Bytes): string {
    seq(|bytes|, i requires 0 <= i < |bytes| => DecodeByte(bytes[i]))
  }

  function DecodeByte(b: Byte): char {
    if b < 128 then b as char else '\U{FFFD}'
  }

  function DropSlashes(s: string): string {
    if s != [] && s[|s| - 1] == '/' then DropSlashes(s[..|s| - 1]) else s
  }

  /** The member name in a name field. */
  function TrimName(field: string): string {
    DropSlashes(Strip(field))
  }

  datatype Header = NoRoom | BlankSize | BadSize | Sized(name: string, size: int)

  function HeaderAt(data: Bytes, pos: nat): Header {
    if pos + 60 > |data| then NoRoom
    else
      var sizeField := Strip(Decode(data[pos + 48..pos + 58]));
      if sizeField == "" then BlankSize
      else match PyInt(sizeField)
        case None => BadSize
        case Some(n) => Sized(TrimName(Decode(data[pos..pos + 16])), n)
  }

  /** A member found in the data. */
  datatype Entry = Entry(name: string, start: nat, end: nat)

  datatype Stop = AtEnd | Cut | Blank | Malformed | Stuck

  /** Where the loop goes on after a member. */
  function NextPos(pos: int, size: int): int {
    pos + 60 + size + if size % 2 != 0 then 1 else 0
  }

  /** Where the content ends; a negative size leaves an empty slice. */
  function ContentEnd(pos: nat, size: int): nat {
    pos + 60 + if size < 0 then 0 else size
  }

  datatype Parsed = Parsed(entries: seq<Entry>, stop: Stop)

  /** All members from a position on, and why the scan ends, given the header at each position. */
  function Walk(header: nat -> Header, length: nat, pos: nat): Parsed
    decreases length - pos
  {
    if pos >= length then Parsed([], AtEnd)
    else match header(pos)
      case NoRoom => Parsed([], Cut)
      case BlankSize => Parsed([], Blank)
      case BadSize => Parsed([], Malformed)
      case Sized(name, size) =>
        if size < -59 then Parsed([], Stuck)
        else if pos + 60 + size > length then Parsed([], Cut)
        else
          var rest := Walk(header, length, NextPos(pos, size));
          Parsed([Entry(name, pos + 60, ContentEnd(pos, size))] + rest.entries, rest.stop)
  }

  function Headers(data: Bytes): nat -> Header {
    (pos: nat) => HeaderAt(data, pos)
  }

  function Scan(data: Bytes, pos: nat): Parsed {
    Walk(Headers(data), |data|, pos)
  }

  type Members = seq<(string, Bytes)>

  /** Assignment to a key of an insertion-ordered dict. */
  function Put(members: Members, name: string, content: Bytes): Members {
    if members == [] then [(name, content)]
    else if members[0].0 == name then [(name, content)] + members[1..]
    else [members[0]] + Put(members[1..], name, content)
  }

  function PutAll(items: Members): Members {
    if items == [] then [] else Put(PutAll(items[..|items| - 1]), items[|items| - 1].0, items[|items| - 1].1)
  }

  ghost predicate InBounds(data: Bytes, entries: seq<Entry>) {
    Within(|data|, entries)
  }

  ghost predicate Within(length: nat, entries: seq<Entry>) {
    forall i | 0 <= i < |entries| :: entries[i].start <= entries[i].end <= length
  }

  function Contents(data: Bytes, entries: seq<Entry>): Members
    requires InBounds(data, entries)
  {
    seq(|entries|, i requires 0 <= i < |entries| => (entries[i].name, data[entries[i].start..entries[i].end]))
  }

  /** Each entry lies behind the entry before it, and no two overlap. */
  ghost predicate Increasing(pos: nat, entries: seq<Entry>) {
    && (forall i | 0 <= i < |entries| :: pos + 60 <= entries[i].start <= entries[i].end)
    && (forall i, j | 0 <= i < j < |entries| :: entries[i].end < entries[j].start)
  }

  lemma {:induction false} WalkFacts(header: nat -> Header, length: nat, pos: nat)
    requires forall p: nat | header(p).Sized? :: p + 60 <= length
    ensures Within(length, Walk(header, length, pos).entries)
    ensures Increasing(pos, Walk(header, length, pos).entries)
    decreases length - pos
  {
    if pos < length && header(pos).Sized? && header(pos).size >= -59 && pos + 60 + header(pos).size <= length {
      WalkFacts(header, length, NextPos(pos, header(pos).size));
    }
  }

  /** Every member is a slice of the data behind its own header; slices are disjoint and increase. This
      holds of every byte string, also of one with small negative sizes. */
  lemma MembersAreDisjointSlices(data: Bytes, pos: nat)
    ensures InBounds(data, Scan(data, pos).entries)
    ensures Increasing(pos, Scan(data, pos).entries)
  {
    WalkFacts(Headers(data), |data|, pos);
  }

  lemma {:induction false} ShorterWalk(header: nat -> Header, length: nat, header': nat -> Header, n: nat, pos: nat)
    requires n <= length
    requires forall p: nat :: header'(p) == header(p) || (header'(p) == NoRoom && p + 60 > n)
    ensures Walk(header', n, pos).entries <= Walk(header, length, pos).entries
    decreases length - pos
  {
    if pos < n && header'(pos).Sized? && header'(pos).size >= -59 && pos + 60 + header'(pos).size <= n {
      ShorterWalk(header, length, header', n, NextPos(pos, header(pos).size));
    }
  }

  /** Cutting the data anywhere loses members only at the end. */
  lemma TruncationKeepsAPrefix(data: Bytes, n: nat, pos: nat)
    requires n <= |data|
    ensures Scan(data[..n], pos).entries <= Scan(data, pos).entries
  {
    forall p: nat
      ensures Headers(data[..n])(p) == Headers(data)(p) || (Headers(data[..n])(p) == NoRoom && p + 60 > n)
    {
      if p + 60 <= n {
        assert data[..n][p + 48..p + 58] == data[p + 48..p + 58];
        assert data[..n][p..p + 16] == data[p..p + 16];
      }
    }
    ShorterWalk(Headers(data), |data|, Headers(data[..n]), n, pos);
  }

  /** And the members that are left keep their contents. */
  lemma TruncationKeepsContents(data: Bytes, n: nat, pos: nat)
    requires n <= |data|
    ensures InBounds(data[..n], Scan(data[..n], pos).entries) && InBounds(data, Scan(data, pos).entries)
    ensures Contents(data[..n], Scan(data[..n], pos).entries) <= Contents(data, Scan(data, pos).entries)
  {
    MembersAreDisjointSlices(data[..n], pos);
    MembersAreDisjointSlices(data, pos);
    TruncationKeepsAPrefix(data, n, pos);
    PrefixContents(data, n, Scan(data[..n], pos).entries, Scan(data, pos).entries);
  }

  lemma PrefixContents(data: Bytes, n: nat, some: seq<Entry>, all: seq<Entry>)
    requires n <= |data| && some <= all && InBounds(data[..n], some) && InBounds(data, all)
    ensures Contents(data[..n], some) <= Contents(data, all)
  {
    assert forall e: Entry | e.start <= e.end <= n :: data[..n][e.start..e.end] == data[e.start..e.end];
    assert forall i | 0 <= i < |some| :: some[i] == all[i];
  }

  datatype ParseResult = Ok(members: Members) | ValueError | NoProgress

  ghost predicate Parses(data: Bytes, parsed: Parsed, result: ParseResult) {
    && InBounds(data, parsed.entries)
    && result == if parsed.stop.Malformed? then ValueError
                 else if parsed.stop.Stuck? then NoProgress
                 else Ok(PutAll(Contents(data, parsed.entries)))
  }

  /** The parsing loop, on data that starts with the magic. */
  method Parse(data: Bytes) returns (result: ParseResult)
    ensures Parses(data, Scan(data, |MAGIC|), result)
  {
    WalkFacts(Headers(data), |data|, |MAGIC|);
    result := ParseLoop(data, Headers(data), Walks(Headers(data), |data|));
  }

  /** The walk from each position. */
  function Walks(header: nat -> Header, length: nat): nat -> Parsed {
    (pos: nat) => Walk(header, length, pos)
  }

  /** `walk` unfolds at a position as the walk over these headers does. */
  predicate UnfoldsAt(walk: nat -> Parsed, header: nat -> Header, length: nat, pos: nat) {
    walk(pos) ==
    if pos >= length then Parsed([], AtEnd)
    else match header(pos)
      case NoRoom => Parsed([], Cut)
      case BlankSize => Parsed([], Blank)
      case BadSize => Parsed([], Malformed)
      case Sized(name, size) =>
        if size < -59 then Parsed([], Stuck)
        else if pos + 60 + size > length then Parsed([], Cut)
        else
          var rest := walk(NextPos(pos, size));
          Parsed([Entry(name, pos + 60, ContentEnd(pos, size))] + rest.entries, rest.stop)
  }

  ghost predicate Unfolds(walk: nat -> Parsed, header: nat -> Header, length: nat) {
    forall pos: nat :: UnfoldsAt(walk, header, length, pos)
  }

  /** The loop, proved against any walk that unfolds at each position. */
  method ParseLoop(data: Bytes, headerAt: nat -> Header, ghost walk: nat -> Parsed) returns (result: ParseResult)
    requires forall p: nat | headerAt(p).Sized? :: p + 60 <= |data|
    requires Unfolds(walk, headerAt, |data|) && InBounds(data, walk(|MAGIC|).entries)
    ensures Parses(data, walk(|MAGIC|), result)
  {
    ghost var done: seq<Entry> := [];
    var members: Members := [];
    var pos := |MAGIC|;
    assert Contents(data, []) == [];
    while pos < |data|
      invariant Progress(data, walk, pos, done, members)
      decreases |data| - pos
    {
      var header := headerAt(pos);
      Exits(data, headerAt, walk, pos, done, members);
      if header.NoRoom? || header.BlankSize? {
        break;
      }
      if header.BadSize? {
        return ValueError;
      }
      if header.size < -59 {
        return NoProgress;
      }
      if pos + 60 + header.size > |data| {
        break;
      }
      Forward(data, headerAt, walk, pos, done, members);
      var content, end := ReadContent(data, pos, header.size);
      members := Put(members, header.name, content);
      done := done + [EntryAt(pos, header)];
      pos := end;
    }
    Exits(data, headerAt, walk, pos, done, members);
    result := Ok(members);
  }

  /** The content of a member, and where the next header starts: the format pads to two bytes. */
  method ReadContent(data: Bytes, pos: nat, size: int) returns (content: Bytes, next: nat)
    requires size >= -59 && pos + 60 <= |data| && pos + 60 + size <= |data|
    ensures content == if size < 0 then [] else data[pos + 60..pos + 60 + size]
    ensures next == NextPos(pos, size)
  {
    var start := pos + 60;
    var end := start + size;
    content := if end < start then [] else data[start..end];
    if size % 2 != 0 {
      end := end + 1;
    }
    next := end;
  }

  /** What it means to leave the loop at a position. */
  lemma Exits(data: Bytes, header: nat -> Header, walk: nat -> Parsed, pos: nat, done: seq<Entry>, members: Members)
    requires Unfolds(walk, header, |data|) && Progress(data, walk, pos, done, members)
    ensures var whole := walk(|MAGIC|);
            && (pos >= |data| || header(pos).NoRoom? || header(pos).BlankSize? ==> Parses(data, whole, Ok(members)))
            && (pos < |data| && header(pos).BadSize? ==> Parses(data, whole, ValueError))
            && (pos < |data| && header(pos).Sized? && header(pos).size < -59 ==> Parses(data, whole, NoProgress))
            && (pos < |data| && header(pos).Sized? && header(pos).size >= -59 && pos + 60 + header(pos).size > |data| ==>
                  Parses(data, whole, Ok(members)))
  {
    assert UnfoldsAt(walk, header, |data|, pos);
    assert done + [] == done;
  }

  function EntryAt(pos: nat, header: Header): Entry
    requires header.Sized?
  {
    Entry(header.name, pos + 60, ContentEnd(pos, header.size))
  }

  /** The members found so far, those still ahead, and the dict filled with the former. */
  ghost predicate Progress(data: Bytes, walk: nat -> Parsed, pos: nat, done: seq<Entry>, members: Members) {
    && done + walk(pos).entries == walk(|MAGIC|).entries && walk(pos).stop == walk(|MAGIC|).stop
    && InBounds(data, done) && members == PutAll(Contents(data, done)) && InBounds(data, walk(|MAGIC|).entries)
  }

  /** One member read. */
  lemma Forward(data: Bytes, header: nat -> Header, walk: nat -> Parsed, pos: nat, done: seq<Entry>, members: Members)
    requires Unfolds(walk, header, |data|) && Progress(data, walk, pos, done, members) && pos < |data|
    requires header(pos).Sized? && header(pos).size >= -59 && pos + 60 <= |data| && pos + 60 + header(pos).size <= |data|
    ensures var (size, entry) := (header(pos).size, EntryAt(pos, header(pos)));
            && entry.start <= entry.end <= |data|
            && Progress(data, walk, NextPos(pos, size), done + [entry],
                        Put(members, entry.name, if size < 0 then [] else data[pos + 60..pos + 60 + size]))
  {
    var entry := EntryAt(pos, header(pos));
    assert UnfoldsAt(walk, header, |data|, pos);
    Assoc(done, [entry], walk(NextPos(pos, header(pos).size)).entries);
    ContentsSnoc(data, done, entry);
    assert header(pos).size < 0 ==> data[entry.start..entry.end] == [];
  }

  lemma ContentsSnoc(data: Bytes, done: seq<Entry>, entry: Entry)
    requires InBounds(data, done) && entry.start <= entry.end <= |data|
    ensures InBounds(data, done + [entry])
    ensures PutAll(Contents(data, done + [entry])) == Put(PutAll(Contents(data, done)), entry.name, data[entry.start..entry.end])
  {
    assert Contents(data, done + [entry])[..|done|] == Contents(data, done);
  }

  lemma Assoc<T>(a: seq<T>, b: seq<T>, c: seq<T>)
    ensures a + b + c == a + (b + c)
  {
  }

  // ----- printing

  /** A member as an archiver writes it: date, owner and mode fill `meta`. */
  datatype Member = Member(name: Bytes, meta: Bytes, fmag: Bytes, content: Bytes)

  ghost predicate Printable(m: Member) {
    |m.name| <= 16 && |m.meta| == 32 && |m.fmag| == 2 && |m.content| < Power10(10)
  }

  function Pad(bytes: Bytes, width: nat): Bytes {
    bytes + if |bytes| < width then seq(width - |bytes|, _ => SPACE) else []
  }

  function Encode(digits: string): Bytes
    requires AllDigits(digits)
  {
    seq(|digits|, i requires 0 <= i < |digits| => digits[i] as int as Byte)
  }

  function SizeField(n: nat): Bytes {
    Pad(Encode(Digits(n)), 10)
  }

  function PrintHeader(m: Member): Bytes {
    Pad(m.name, 16) + m.meta + SizeField(|m.content|) + m.fmag
  }

  function PrintMember(m: Member): Bytes {
    PrintHeader(m) + m.content + if |m.content| % 2 == 1 then [10] else []
  }

  function PrintAll(ms: seq<Member>): Bytes {
    if ms == [] then [] else PrintMember(ms[0]) + PrintAll(ms[1..])
  }

  function Print(ms: seq<Member>): Bytes {
    MAGIC + PrintAll(ms)
  }

  /** What a member is called after printing and parsing. */
  function Named(m: Member): (string, Bytes) {
    (TrimName(Decode(m.name)), m.content)
  }

  lemma {:induction false} RightStripPadding(s: string, n: nat)
    ensures RightStrip(s + seq(n, _ => ' ')) == RightStrip(s)
  {
    var t := s + seq(n, _ => ' ');
    if n == 0 {
      assert t == s;
    } else {
      assert t[..|t| - 1] == s + seq(n - 1, _ => ' ');
      RightStripPadding(s, n - 1);
    }
  }

  lemma {:induction false} LeftStripPadding(s: string, n: nat)
    ensures RightStrip(LeftStrip(s + seq(n, _ => ' '))) == RightStrip(LeftStrip(s))
  {
    var blanks := seq(n, _ => ' ');
    if s == [] {
      AllBlank(n);
      assert s + blanks == blanks;
    } else if IsSpace(s[0]) {
      assert (s + blanks)[1..] == s[1..] + blanks;
      LeftStripPadding(s[1..], n);
    } else {
      RightStripPadding(s, n);
    }
  }

  lemma {:induction false} AllBlank(n: nat)
    ensures LeftStrip(seq(n, _ => ' ')) == []
  {
    if n > 0 {
      assert seq(n, _ => ' ')[1..] == seq(n - 1, _ => ' ');
      AllBlank(n - 1);
    }
  }

  /** Blanks to the right of a field do not matter. */
  lemma PaddingVanishes(bytes: Bytes, width: nat)
    ensures Strip(Decode(Pad(bytes, width))) == Strip(Decode(bytes))
  {
    var n := if |bytes| < width then width - |bytes| else 0;
    assert Decode(Pad(bytes, width)) == Decode(bytes) + seq(n, _ => ' ');
    LeftStripPadding(Decode(bytes), n);
  }

  lemma DigitsEncode(n: nat)
    ensures Decode(Encode(Digits(n))) == Digits(n)
    ensures Strip(Digits(n)) == Digits(n)
  {
    var s := Digits(n);
    forall i | 0 <= i < |s|
      ensures Decode(Encode(s))[i] == s[i]
    {
      assert IsDigit(s[i]);
    }
    assert IsStripped(s);
    StripFixpoint(s);
  }

  lemma SizeFieldReadsBack(n: nat)
    requires n < Power10(10)
    ensures |SizeField(n)| == 10
    ensures Strip(Decode(SizeField(n))) == Digits(n) && PyInt(Digits(n)) == Some(n)
  {
    DigitsLength(n, 10);
    PaddingVanishes(Encode(Digits(n)), 10);
    DigitsEncode(n);
    PyIntOfDigits(Digits(n));
    DigitsRoundTrip(n);
  }

  lemma FieldSlices(before: Bytes, name: Bytes, meta: Bytes, size: Bytes, rest: Bytes)
    requires |name| == 16 && |meta| == 32 && |size| == 10
    ensures var data := before + (name + meta + size + rest); var pos := |before|;
            |data| >= pos + 58 && data[pos..pos + 16] == name && data[pos + 48..pos + 58] == size
  {
  }

  lemma HeaderReadsBack(before: Bytes, m: Member, after: Bytes)
    requires Printable(m)
    ensures HeaderAt(before + PrintMember(m) + after, |before|) == Sized(Named(m).0, |m.content|)
  {
    var fields := Pad(m.name, 16) + m.meta + SizeField(|m.content|);
    var padding: Bytes := if |m.content| % 2 == 1 then [10] else [];
    SizeFieldReadsBack(|m.content|);
    FieldSlices(before, Pad(m.name, 16), m.meta, SizeField(|m.content|), m.fmag + m.content + padding + after);
    Regroup(before, fields, m.fmag, m.content, padding, after);
    PaddingVanishes(m.name, 16);
  }

  lemma Regroup<T>(before: seq<T>, fields: seq<T>, fmag: seq<T>, content: seq<T>, padding: seq<T>, after: seq<T>)
    ensures before + (fields + fmag + content + padding) + after == before + (fields + (fmag + content + padding + after))
  {
  }

  /** The names and contents found in a scan, and why it stopped. */
  ghost predicate Found(data: Bytes, parsed: Parsed, items: Members, stop: Stop) {
    parsed.stop == stop && InBounds(data, parsed.entries) && Contents(data, parsed.entries) == items
  }

  function NamedAll(ms: seq<Member>): Members {
    if ms == [] then [] else [Named(ms[0])] + NamedAll(ms[1..])
  }

  lemma PrintedSize(m: Member)
    requires Printable(m)
    ensures |PrintMember(m)| == 60 + |m.content| + |m.content| % 2
    ensures PrintMember(m)[60..60 + |m.content|] == m.content
  {
    SizeFieldReadsBack(|m.content|);
  }

  /** Printed members in front of what is found behind them. */
  lemma {:induction false} ScanPrinted(before: Bytes, ms: seq<Member>, after: Bytes, data: Bytes, items: Members, stop: Stop)
    requires forall m | m in ms :: Printable(m)
    requires data == before + PrintAll(ms) + after
    requires FoundFrom(data, |before + PrintAll(ms)|, items, stop)
    ensures FoundFrom(data, |before|, NamedAll(ms) + items, stop)
    decreases |ms|
  {
    if ms == [] {
      assert NamedAll(ms) + items == items;
    } else {
      var (first, others) := (ms[0], ms[1..]);
      Restack(before, PrintMember(first), PrintAll(others), after);
      Assoc(before, PrintMember(first), PrintAll(others));
      ScanPrinted(before + PrintMember(first), others, after, data, items, stop);
      FirstPrinted(before, first, PrintAll(others) + after, data, NamedAll(others) + items, stop);
      Assoc([Named(first)], NamedAll(others), items);
    }
  }

  ghost predicate FoundFrom(data: Bytes, pos: nat, items: Members, stop: Stop) {
    Found(data, Scan(data, pos), items, stop)
  }

  lemma FirstPrinted(before: Bytes, m: Member, after: Bytes, data: Bytes, items: Members, stop: Stop)
    requires Printable(m) && data == before + PrintMember(m) + after
    requires FoundFrom(data, |before + PrintMember(m)|, items, stop)
    ensures FoundFrom(data, |before|, [Named(m)] + items, stop)
  {
    PrintedSize(m);
    HeaderReadsBack(before, m, after);
    ScanFront(before, PrintMember(m), after, Named(m).0, m.content, items, stop);
  }

  lemma Restack<T>(a: seq<T>, b: seq<T>, c: seq<T>, d: seq<T>)
    ensures a + (b + c) + d == a + b + c + d == a + b + (c + d)
  {
  }

  /** One printed member in front of what is found behind it. */
  lemma ScanFront(before: Bytes, printed: Bytes, after: Bytes, name: string, content: Bytes, items: Members, stop: Stop)
    requires |printed| == 60 + |content| + |content| % 2 && printed[60..60 + |content|] == content
    requires HeaderAt(before + printed + after, |before|) == Sized(name, |content|)
    requires Found(before + printed + after, Scan(before + printed + after, |before + printed|), items, stop)
    ensures Found(before + printed + after, Scan(before + printed + after, |before|), [(name, content)] + items, stop)
  {
    ContentInPlace(before, printed, after, |content|);
    ScanStep(before + printed + after, |before|, name, content, |before + printed|, items, stop);
  }

  lemma ScanStep(data: Bytes, pos: nat, name: string, content: Bytes, next: nat, items: Members, stop: Stop)
    requires next == pos + 60 + |content| + |content| % 2 && pos + 60 + |content| <= |data|
    requires data[pos + 60..pos + 60 + |content|] == content
    requires HeaderAt(data, pos) == Sized(name, |content|)
    requires Found(data, Scan(data, next), items, stop)
    ensures Found(data, Scan(data, pos), [(name, content)] + items, stop)
  {
    WalkStep(Headers(data), data, pos, name, content, items, stop);
  }

  lemma ContentInPlace(before: Bytes, printed: Bytes, after: Bytes, size: nat)
    requires 60 + size <= |printed|
    ensures (before + printed + after)[|before| + 60..|before| + 60 + size] == printed[60..60 + size]
  {
  }

  /** One member found in front of the others. */
  lemma WalkStep(header: nat -> Header, data: Bytes, pos: nat, name: string, content: Bytes, items: Members, stop: Stop)
    requires |data| >= pos + 60 + |content|
    requires header(pos) == Sized(name, |content|)
    requires data[pos + 60..pos + 60 + |content|] == content
    requires Found(data, Walk(header, |data|, pos + 60 + |content| + |content| % 2), items, stop)
    ensures Found(data, Walk(header, |data|, pos), [(name, content)] + items, stop)
  {
    var tail := Walk(header, |data|, pos + 60 + |content| + |content| % 2);
    var entry := Entry(name, pos + 60, pos + 60 + |content|);
    assert Walk(header, |data|, pos) == Parsed([entry] + tail.entries, stop);
    ContentsCons(data, entry, tail.entries);
  }

  lemma ContentsCons(data: Bytes, entry: Entry, entries: seq<Entry>)
    requires InBounds(data, entries) && entry.start <= entry.end <= |data|
    ensures InBounds(data, [entry] + entries)
    ensures Contents(data, [entry] + entries) == [(entry.name, data[entry.start..entry.end])] + Contents(data, entries)
  {
  }

  /** Parsing a printed archive gives back every member, whatever its other header fields hold: its
      content exactly, under its name without outer white space and trailing slashes. */
  lemma PrintedArchiveReadsBack(ms: seq<Member>)
    requires forall m | m in ms :: Printable(m)
    ensures Found(Print(ms), Scan(Print(ms), |MAGIC|), NamedAll(ms), AtEnd)
  {
    NothingFollows(Print(ms));
    assert Print(ms) == MAGIC + PrintAll(ms) + [];
    ScanPrinted(MAGIC, ms, [], Print(ms), [], AtEnd);
    assert NamedAll(ms) + [] == NamedAll(ms);
  }

  lemma NothingFollows(data: Bytes)
    ensures Found(data, Scan(data, |data|), [], AtEnd)
  {
    assert Contents(data, []) == [];
  }

  lemma {:induction false} DropSlashesFixpoint(s: string)
    ensures |DropSlashes(s)| <= |s|
    ensures DropSlashes(s) == s <==> s == [] || s[|s| - 1] != '/'
  {
    if s != [] && s[|s| - 1] == '/' {
      DropSlashesFixpoint(s[..|s| - 1]);
    }
  }

  /** A name survives exactly when it is stripped and does not end in a slash; then it also survives
      with one slash appended, as some archivers write it. */
  lemma NameSurvives(name: string)
    ensures TrimName(name) == name <==> IsStripped(name) && (name == [] || name[|name| - 1] != '/')
    ensures TrimName(name) == name && name != [] ==> TrimName(name + "/") == name
  {
    StripFixpoint(name);
    StripIsStripped(name);
    DropSlashesFixpoint(Strip(name));
    LeftStripEnds(name);
    RightStripEnds(LeftStrip(name));
    if |Strip(name)| == |name| {
      assert Strip(name) == name;
    }
    if TrimName(name) == name && name != [] {
      assert |Strip(name)| == |name|;
      assert IsStripped(name + "/");
      StripFixpoint(name + "/");
      assert (name + "/")[..|name|] == name;
      DropSlashesFixpoint(name);
    }
  }

  ghost predicate DistinctNames(items: Members) {
    forall i, j | 0 <= i < j < |items| :: items[i].0 != items[j].0
  }

  lemma {:induction false} PutNew(members: Members, name: string, content: Bytes)
    requires forall i | 0 <= i < |members| :: members[i].0 != name
    ensures Put(members, name, content) == members + [(name, content)]
  {
    if members != [] {
      PutNew(members[1..], name, content);
    }
  }

  /** With distinct names the dict is the list itself, in order. */
  lemma {:induction false} DistinctNamesKeepAll(items: Members)
    requires DistinctNames(items)
    ensures PutAll(items) == items
  {
    if items != [] {
      var init := items[..|items| - 1];
      DistinctNamesKeepAll(init);
      PutNew(init, items[|items| - 1].0, items[|items| - 1].1);
    }
  }

  // ----- the file

  predicate IsGzip(data: Bytes) {
    |data| >= 2 && data[0] == 0x1F && data[1] == 0x8B
  }

  /** The tar members: every name gets the leading "./". */
  function TarNames(members: Members): Members {
    seq(|members|, i requires 0 <= i < |members| => ("./" + members[i].0, members[i].1))
  }

  /** What a file holds after repacking, given the gzip tar writer. */
  function Repacked(data: Bytes, tarGz: Members -> Bytes): Bytes {
    if IsGzip(data) || !(MAGIC <= data) then data
    else
      var parsed := Scan(data, |MAGIC|);
      MembersAreDisjointSlices(data, |MAGIC|);
      if parsed.stop.Malformed? || parsed.stop.Stuck? || parsed.entries == [] then data
      else tarGz(TarNames(PutAll(Contents(data, parsed.entries))))
  }

  class Package {
    var data: Bytes

    constructor (data: Bytes)
      ensures this.data == data
    {
      this.data := data;
    }

    /** Repacks the file in place; tells whether it raised instead. */
    method RepackArToTarGz(tarGz: Members -> Bytes) returns (raised: bool)
      modifies this
      ensures data == Repacked(old(data), tarGz)
      ensures raised <==>
                !IsGzip(old(data)) && MAGIC <= old(data) &&
                (Scan(old(data), |MAGIC|).stop.Malformed? || Scan(old(data), |MAGIC|).stop.Stuck?)
    {
      raised := false;
      if IsGzip(data) {
        return;
      }
      if !(MAGIC <= data) {
        return;
      }
      var parsed := Parse(data);
      if !parsed.Ok? {
        return true;
      }
      PutAllEmpty(Contents(data, Scan(data, |MAGIC|).entries));
      if parsed.members == [] {
        return;
      }
      data := tarGz(TarNames(parsed.members));
    }
  }

  lemma PutAllEmpty(items: Members)
    ensures PutAll(items) == [] <==> items == []
  {
  }

  /** Repacking a second time changes nothing. */
  lemma RepackingTwiceIsOnce(data: Bytes, tarGz: Members -> Bytes)
    requires forall members :: IsGzip(tarGz(members))
    ensures Repacked(Repacked(data, tarGz), tarGz) == Repacked(data, tarGz)
  {
  }

  /** A printed package with distinct names becomes the tar of exactly its members, in order. */
  lemma PrintedPackageIsRepacked(ms: seq<Member>, tarGz: Members -> Bytes)
    requires ms != [] && forall m | m in ms :: Printable(m)
    requires DistinctNames(NamedAll(ms))
    ensures Repacked(Print(ms), tarGz) == tarGz(TarNames(NamedAll(ms)))
  {
    PrintedArchiveReadsBack(ms);
    assert Print(ms)[0] == MAGIC[0];
    FoundIsRepacked(Print(ms), NamedAll(ms), AtEnd, tarGz);
  }

  lemma FoundIsRepacked(data: Bytes, items: Members, stop: Stop, tarGz: Members -> Bytes)
    requires !IsGzip(data) && MAGIC <= data && !stop.Malformed? && !stop.Stuck?
    requires items != [] && DistinctNames(items) && Found(data, Scan(data, |MAGIC|), items, stop)
    ensures Repacked(data, tarGz) == tarGz(TarNames(items))
  {
    DistinctNamesKeepAll(items);
    var entries := Scan(data, |MAGIC|).entries;
    assert |Contents(data, entries)| == |entries|;
  }
}
