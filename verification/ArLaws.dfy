/** The repacking in bytes and texts: the layout of a printed archive, and the tar that a package becomes. */
module ArLaws {
  import opened Options
  import opened Text
  import opened Decimal
  import opened ArArchive

  /** The decimal text of a number, digit by digit. */
  lemma DigitsAre(n: nat, d: nat)
    requires d < 10
    ensures Digits(d) == "0123456789"[d..d + 1]
    ensures n > 0 ==> Digits(10 * n + d) == Digits(n) + Digits(d)
  {
    var text := "0123456789";
    assert text[d] == DigitChar(d);
  }

  /** A printed archive starts with the magic; each member is a header of sixty bytes, name, other fields,
      size and trailer in their columns, then the content, padded by a newline to an even length. */
  lemma PrintedLayout(m: Member, ms: seq<Member>)
    requires Printable(m)
    ensures |Print([m] + ms)| >= 68 + |m.content|
    ensures var data := Print([m] + ms);
            && data[..8] == [33, 60, 97, 114, 99, 104, 62, 10]
            && Column(data[8..24], m.name) && data[24..56] == m.meta
            && SizeColumn(data[56..66], Digits(|m.content|)) && data[66..68] == m.fmag
            && data[68..68 + |m.content|] == m.content
            && data[68 + |m.content|..] == (if |m.content| % 2 == 1 then [10] else []) + PrintAll(ms)
  {
    var (name, size) := (Pad(m.name, 16), SizeField(|m.content|));
    var padding: Bytes := if |m.content| % 2 == 1 then [10] else [];
    Columns(m);
    PrintedFields(m, name, size, padding, PrintAll(ms));
    assert ([m] + ms)[1..] == ms;
    assert Print([m] + ms) == [33, 60, 97, 114, 99, 104, 62, 10] + (name + m.meta + size + m.fmag + m.content + padding + PrintAll(ms));
  }

  lemma Columns(m: Member)
    requires Printable(m)
    ensures |Pad(m.name, 16)| == 16 && Column(Pad(m.name, 16), m.name)
    ensures |SizeField(|m.content|)| == 10 && SizeColumn(SizeField(|m.content|), Digits(|m.content|))
  {
    PadColumn(m.name, 16);
    SizeColumnOf(|m.content|);
  }

  lemma PadColumn(bytes: Bytes, width: nat)
    requires |bytes| <= width
    ensures |Pad(bytes, width)| == width && Column(Pad(bytes, width), bytes)
  {
  }

  lemma SizeColumnOf(size: nat)
    requires size < Power10(10)
    ensures |SizeField(size)| == 10 && SizeColumn(SizeField(size), Digits(size))
  {
    DigitsLength(size, 10);
    PadColumn(Encode(Digits(size)), 10);
  }

  /** A field: its bytes and then blanks. */
  ghost predicate Column(field: Bytes, bytes: Bytes) {
    bytes <= field && forall i | |bytes| <= i < |field| :: field[i] == 32
  }

  ghost predicate SizeColumn(field: Bytes, digits: string) {
    |digits| <= |field| && forall i | 0 <= i < |field| :: field[i] == if i < |digits| then digits[i] as int else 32
  }

  lemma PrintedFields(m: Member, name: Bytes, size: Bytes, padding: Bytes, after: Bytes)
    requires |name| == 16 && |m.meta| == 32 && |size| == 10 && |m.fmag| == 2
    ensures var data := [33, 60, 97, 114, 99, 104, 62, 10] + (name + m.meta + size + m.fmag + m.content + padding + after);
            && data[8..24] == name && data[24..56] == m.meta && data[56..66] == size && data[66..68] == m.fmag
            && data[68..68 + |m.content|] == m.content && data[68 + |m.content|..] == padding + after
  {
  }

  /** The bytes of a text of ASCII characters. */
  ghost predicate Ascii(bytes: Bytes, text: string) {
    |bytes| == |text| && forall i | 0 <= i < |text| :: text[i] as int < 128 && bytes[i] == text[i] as int
  }

  /** A clean name, as some archivers write it or with the slash of others. */
  ghost predicate Called(m: Member, name: string) {
    && (Ascii(m.name, name) || Ascii(m.name, name + "/"))
    && name != "" && name[|name| - 1] != '/' && !IsSpace(name[0]) && !IsSpace(name[|name| - 1])
  }

  lemma CalledSo(m: Member, name: string)
    requires Called(m, name)
    ensures Named(m) == (name, m.content)
  {
    NameSurvives(name);
    if Ascii(m.name, name) {
      assert Decode(m.name) == name;
    } else {
      assert Decode(m.name) == name + "/";
    }
  }

  lemma {:induction false} CalledAll(ms: seq<Member>, names: seq<string>)
    requires |names| == |ms| && forall i | 0 <= i < |ms| :: Called(ms[i], names[i])
    ensures |NamedAll(ms)| == |ms| && forall i | 0 <= i < |ms| :: NamedAll(ms)[i] == (names[i], ms[i].content)
  {
    if ms != [] {
      CalledSo(ms[0], names[0]);
      CalledAll(ms[1..], names[1..]);
    }
  }

  /** A printed package whose members have distinct clean names becomes the tar that holds each content
      under "./" and its name, in order. */
  lemma PackageBecomesItsTar(ms: seq<Member>, names: seq<string>, items: Members, tarGz: Members -> Bytes)
    requires ms != [] && |names| == |ms| == |items| && forall m | m in ms :: Printable(m)
    requires forall i | 0 <= i < |ms| :: Called(ms[i], names[i])
    requires forall i, j | 0 <= i < j < |names| :: names[i] != names[j]
    requires forall i | 0 <= i < |ms| :: items[i] == (['.', '/'] + names[i], ms[i].content)
    ensures Repacked(Print(ms), tarGz) == tarGz(items)
  {
    CalledAll(ms, names);
    PrintedPackageIsRepacked(ms, tarGz);
    assert TarNames(NamedAll(ms)) == items;
  }

  /** A gzip file, and any file that does not start with the magic, stays as it is. */
  lemma OthersAreLeft(data: Bytes, tarGz: Members -> Bytes)
    requires (|data| >= 2 && data[0] == 31 && data[1] == 139) || |data| < 8 || data[..8] != [33, 60, 97, 114, 99, 104, 62, 10]
    ensures Repacked(data, tarGz) == data
  {
    if |data| >= 8 && !IsGzip(data) {
      NoMagic(data);
    }
    Unchanged(data, tarGz);
  }

  lemma NoMagic(data: Bytes)
    requires |data| >= 8 && data[..8] != [33, 60, 97, 114, 99, 104, 62, 10]
    ensures !(MAGIC <= data)
  {
    var front := data[..8];
    assert MAGIC <= data ==> front == MAGIC;
  }

  lemma Unchanged(data: Bytes, tarGz: Members -> Bytes)
    requires IsGzip(data) || !(MAGIC <= data)
    ensures Repacked(data, tarGz) == data
  {
  }

  // ----- what follows the printed members, and members of one name

  /** The header field for the size, in a rest of at least sixty bytes. */
  function SizeText(rest: Bytes): Bytes
    requires |rest| >= 60
  {
    rest[48..58]
  }

  /** A rest that ends the loop quietly: no room for a header, a blank size, or more content announced than
      there is. */
  ghost predicate EndsQuietly(rest: Bytes) {
    || |rest| < 60
    || (forall i | 0 <= i < 10 :: SizeText(rest)[i] == 32)
    || exists n: nat :: SizeColumn(SizeText(rest), Digits(n)) && 60 + n > |rest|
  }

  /** Whatever ends the loop quietly is dropped: the members before it are repacked all the same. */
  lemma RestIsDropped(ms: seq<Member>, names: seq<string>, items: Members, rest: Bytes, tarGz: Members -> Bytes)
    requires ms != [] && |names| == |ms| == |items| && forall m | m in ms :: Printable(m)
    requires forall i | 0 <= i < |ms| :: Called(ms[i], names[i])
    requires forall i, j | 0 <= i < j < |names| :: names[i] != names[j]
    requires forall i | 0 <= i < |ms| :: items[i] == (['.', '/'] + names[i], ms[i].content)
    requires EndsQuietly(rest)
    ensures Repacked(Print(ms) + rest, tarGz) == tarGz(items)
  {
    var data := Print(ms) + rest;
    CalledAll(ms, names);
    var stop := QuietStop(Print(ms), rest);
    PrintedThen(ms, rest, stop);
    StartsWithMagic(ms, rest);
    FoundIsRepacked(data, NamedAll(ms), stop, tarGz);
    assert TarNames(NamedAll(ms)) == items;
  }

  lemma StartsWithMagic(ms: seq<Member>, rest: Bytes)
    ensures MAGIC <= Print(ms) + rest && !IsGzip(Print(ms) + rest)
  {
    assert (Print(ms) + rest)[0] == MAGIC[0];
  }

  lemma PrintedThen(ms: seq<Member>, rest: Bytes, stop: Stop)
    requires forall m | m in ms :: Printable(m)
    requires FoundFrom(Print(ms) + rest, |Print(ms)|, [], stop)
    ensures FoundFrom(Print(ms) + rest, 8, NamedAll(ms), stop)
  {
    ScanPrinted(MAGIC, ms, rest, Print(ms) + rest, [], stop);
    assert NamedAll(ms) + [] == NamedAll(ms);
  }

  lemma QuietStop(before: Bytes, rest: Bytes) returns (stop: Stop)
    requires EndsQuietly(rest)
    ensures FoundFrom(before + rest, |before|, [], stop) && (stop.AtEnd? || stop.Cut? || stop.Blank?)
  {
    var data := before + rest;
    if |rest| < 60 {
      stop := if rest == [] then AtEnd else Cut;
    } else {
      SizeInPlace(before, rest);
      if n: nat :| SizeColumn(SizeText(rest), Digits(n)) && 60 + n > |rest| {
        SizeIsRead(SizeText(rest), n);
        stop := Cut;
      } else {
        BlankIsRead(SizeText(rest));
        stop := Blank;
      }
    }
    StopsThere(data, |before|, HeaderAt(data, |before|), stop);
  }

  lemma SizeInPlace(before: Bytes, rest: Bytes)
    requires |rest| >= 60
    ensures (before + rest)[|before| + 48..|before| + 58] == SizeText(rest)
  {
  }

  lemma StopsThere(data: Bytes, pos: nat, header: Header, stop: Stop)
    requires pos <= |data| && header == HeaderAt(data, pos)
    requires || (stop == AtEnd && pos == |data|)
             || (stop == Cut && pos < |data| && (header.NoRoom? || (header.Sized? && header.size >= 0 && pos + 60 + header.size > |data|)))
             || (stop == Blank && pos < |data| && header.BlankSize?)
             || (stop == Malformed && pos < |data| && header.BadSize?)
    ensures FoundFrom(data, pos, [], stop)
  {
    assert Contents(data, []) == [];
    assert Scan(data, pos) == Parsed([], stop);
  }

  lemma SizeIsRead(field: Bytes, n: nat)
    requires |field| == 10 && SizeColumn(field, Digits(n))
    ensures Strip(Decode(field)) == Digits(n) && PyInt(Digits(n)) == Some(n)
  {
    DigitsLength(n, 10);
    assert field == SizeField(n);
    SizeFieldReadsBack(n);
  }

  lemma BlankIsRead(field: Bytes)
    requires forall i | 0 <= i < |field| :: field[i] == 32
    ensures Strip(Decode(field)) == ""
  {
    AllBlank(|field|);
    assert Decode(field) == seq(|field|, _ => ' ');
  }

  /** A size field that has a letter is no number: the call raises, and the file stays as it is. */
  lemma LetterInTheSizeRaises(ms: seq<Member>, rest: Bytes, k: nat, tarGz: Members -> Bytes)
    requires |rest| >= 60 && 48 <= k < 58 && (65 <= rest[k] <= 90 || 97 <= rest[k] <= 122)
    requires forall m | m in ms :: Printable(m)
    ensures Scan(Print(ms) + rest, 8).stop == Malformed && Repacked(Print(ms) + rest, tarGz) == Print(ms) + rest
  {
    var (data, pos) := (Print(ms) + rest, |Print(ms)|);
    SizeInPlace(Print(ms), rest);
    assert SizeText(rest)[k - 48] == rest[k];
    LetterIsNoNumber(Decode(SizeText(rest)), k - 48);
    StopsThere(data, pos, HeaderAt(data, pos), Malformed);
    PrintedThen(ms, rest, Malformed);
  }

  lemma LetterIsNoNumber(text: string, k: nat)
    requires k < |text| && ('A' <= text[k] <= 'Z' || 'a' <= text[k] <= 'z')
    ensures Strip(text) != "" && PyInt(Strip(text)) == None
  {
    var j := StripKeeps(text, k);
    assert Strip(text)[j] == text[k];
  }

  /** Stripping keeps what is no white space. */
  lemma StripKeeps(text: string, k: nat) returns (j: nat)
    requires k < |text| && !IsSpace(text[k])
    ensures j < |Strip(text)| && Strip(text)[j] == text[k]
  {
    var left := LeftStrip(text);
    j := LeftStripKeeps(text, k);
    RightStripKeeps(left, j);
  }

  lemma {:induction false} LeftStripKeeps(text: string, k: nat) returns (j: nat)
    requires k < |text| && !IsSpace(text[k])
    ensures j < |LeftStrip(text)| && LeftStrip(text)[j] == text[k]
  {
    if IsSpace(text[0]) {
      j := LeftStripKeeps(text[1..], k - 1);
    } else {
      j := k;
    }
  }

  lemma {:induction false} RightStripKeeps(text: string, k: nat)
    requires k < |text| && !IsSpace(text[k])
    ensures k < |RightStrip(text)| && RightStrip(text)[k] == text[k]
  {
    if IsSpace(text[|text| - 1]) {
      RightStripKeeps(text[..|text| - 1], k);
    }
  }

  /** One more member in the dict: a new name goes to the end, and a name seen before keeps its place and
      gets the new content; names stay distinct. */
  lemma {:induction false} LaterMemberWins(items: Members, name: string, content: Bytes)
    ensures DistinctNames(PutAll(items))
    ensures (forall i | 0 <= i < |PutAll(items)| :: PutAll(items)[i].0 != name) ==> PutAll(items + [(name, content)]) == PutAll(items) + [(name, content)]
    ensures forall i | 0 <= i < |PutAll(items)| && PutAll(items)[i].0 == name :: PutAll(items + [(name, content)]) == PutAll(items)[i := (name, content)]
    decreases |items|
  {
    var members := PutAll(items);
    assert (items + [(name, content)])[..|items|] == items;
    if items != [] {
      var last := items[|items| - 1];
      LaterMemberWins(items[..|items| - 1], last.0, last.1);
      PutKeepsNames(PutAll(items[..|items| - 1]), last.0, last.1);
    }
    if forall i | 0 <= i < |members| :: members[i].0 != name {
      PutNew(members, name, content);
    }
    forall i | 0 <= i < |members| && members[i].0 == name
      ensures Put(members, name, content) == members[i := (name, content)]
    {
      PutOver(members, i, name, content);
    }
  }

  lemma {:induction false} PutOver(members: Members, i: nat, name: string, content: Bytes)
    requires i < |members| && members[i].0 == name && forall j | 0 <= j < i :: members[j].0 != name
    ensures Put(members, name, content) == members[i := (name, content)]
  {
    if i > 0 {
      PutOver(members[1..], i - 1, name, content);
      assert members[i := (name, content)] == [members[0]] + members[1..][i - 1 := (name, content)];
    }
  }

  lemma PutKeepsNames(members: Members, name: string, content: Bytes)
    requires DistinctNames(members)
    ensures DistinctNames(Put(members, name, content))
  {
    if i :| 0 <= i < |members| && members[i].0 == name {
      PutOver(members, i, name, content);
    } else {
      PutNew(members, name, content);
    }
  }
}
