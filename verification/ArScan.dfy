/** Whether the ar loop ends. A size field may hold any integer, so the position can stand still or move
    back, even before the start of the data, where a Python slice counts from the end. */
module ArScan {
  import opened Options
  import opened Text
  import opened Decimal
  import opened ArArchive

  /** A slice bound as Python reads it. */
  function Bound(length: nat, at: int): nat {
    if at >= length then length else if at >= 0 then at else if at + length >= 0 then at + length else 0
  }

  function Slice(data: Bytes, from: int, to: int): Bytes {
    var (a, b) := (Bound(|data|, from), Bound(|data|, to));
    if a <= b then data[a..b] else []
  }

  /** The header that the loop reads at any position. */
  function HeaderFor(data: Bytes, pos: int): Header {
    if pos + 60 > |data| then NoRoom
    else
      var header := Slice(data, pos, pos + 60);
      var sizeField := Strip(Decode(Slice(header, 48, 58)));
      if sizeField == "" then BlankSize
      else match PyInt(sizeField)
        case None => BadSize
        case Some(n) => Sized(TrimName(Decode(Slice(header, 0, 16))), n)
  }

  lemma SliceOfSlice(data: Bytes, pos: nat, from: nat, to: nat)
    requires pos + 60 <= |data| && from <= to <= 60
    ensures Slice(Slice(data, pos, pos + 60), from, to) == data[pos + from..pos + to]
  {
    var header := data[pos..pos + 60];
    assert Slice(data, pos, pos + 60) == header;
    assert Slice(header, from, to) == header[from..to];
    forall k: nat | k < to - from
      ensures header[from..to][k] == data[pos + from..pos + to][k]
    {
      assert header[from + k] == data[pos + from + k];
    }
  }

  lemma SameHeader(data: Bytes, pos: nat)
    ensures HeaderFor(data, pos) == HeaderAt(data, pos)
  {
    if pos + 60 <= |data| {
      SliceOfSlice(data, pos, 48, 58);
      SliceOfSlice(data, pos, 0, 16);
    }
  }

  /** Where the loop is: it has been left, by its test, a break or an exception, or is at a position. */
  datatype Place = Left | At(pos: int)

  /** One round at a position, given the header there. */
  function Round(header: Header, length: nat, pos: int): Place {
    if pos >= length || !header.Sized? || pos + 60 + header.size > length then Left else At(NextPos(pos, header.size))
  }

  /** The place after a number of rounds. */
  function After(step: int -> Place, rounds: nat): Place {
    if rounds == 0 then At(|MAGIC|)
    else match After(step, rounds - 1)
      case Left => Left
      case At(pos) => step(pos)
  }

  type Reader = int -> Header

  function Stepping(header: Reader, length: nat): int -> Place {
    (pos: int) => Round(header(pos), length, pos)
  }

  function Reading(data: Bytes): Reader {
    (pos: int) => HeaderFor(data, pos)
  }

  /** The loop on some data. */
  function Loop(data: Bytes): int -> Place {
    Stepping(Reading(data), |data|)
  }

  ghost predicate Ends(step: int -> Place) {
    exists k: nat :: After(step, k).Left?
  }

  lemma {:induction false} StaysLeft(step: int -> Place, k: nat, n: nat)
    requires k <= n && After(step, k).Left?
    ensures After(step, n).Left?
    decreases n
  {
    if k < n {
      StaysLeft(step, k, n - 1);
    }
  }

  /** What comes after the same place is the same. */
  lemma {:induction false} SameAfter(step: int -> Place, j: nat, k: nat, n: nat)
    requires After(step, j) == After(step, k)
    ensures After(step, j + n) == After(step, k + n)
  {
    if n > 0 {
      SameAfter(step, j, k, n - 1);
    }
  }

  /** The same position is met twice. */
  ghost predicate Recurs(step: int -> Place) {
    exists j: nat, k: nat :: j < k && After(step, j).At? && After(step, j) == After(step, k)
  }

  lemma RecurringNeverEnds(step: int -> Place)
    requires Recurs(step)
    ensures !Ends(step)
  {
    var j: nat, k: nat :| j < k && After(step, j).At? && After(step, j) == After(step, k);
    forall n: nat
      ensures After(step, n).At?
    {
      if n <= j {
        if After(step, n).Left? {
          StaysLeft(step, n, j);
        }
      } else {
        Cycles(step, j, k, n);
      }
    }
  }

  lemma {:induction false} Cycles(step: int -> Place, j: nat, k: nat, n: nat)
    requires j < k && After(step, j).At? && After(step, j) == After(step, k) && j <= n
    ensures After(step, n).At?
    decreases n
  {
    if n <= k {
      if After(step, n).Left? {
        StaysLeft(step, n, k);
      }
    } else {
      Cycles(step, j, k, n - (k - j));
      SameAfter(step, j, k, n - k);
    }
  }

  /** The positions of the first rounds, as a set of numbers from `low` up. */
  function Visited(step: int -> Place, rounds: nat): set<int> {
    set k: nat | k < rounds && After(step, k).At? :: After(step, k).pos
  }

  function Range(low: int, size: nat): set<int> {
    if size == 0 then {} else Range(low, size - 1) + {low + size - 1}
  }

  lemma {:induction false} RangeFacts(low: int, size: nat)
    ensures |Range(low, size)| == size
    ensures forall x :: x in Range(low, size) <==> low <= x < low + size
  {
    if size > 0 {
      RangeFacts(low, size - 1);
    }
  }

  lemma SubsetSize(a: set<int>, b: set<int>)
    requires a <= b
    ensures |a| <= |b|
  {
    assert b == a + (b - a);
  }

  lemma {:induction false} DistinctVisits(step: int -> Place, rounds: nat)
    requires !Recurs(step) && !Ends(step)
    ensures |Visited(step, rounds)| == rounds
  {
    if rounds > 0 {
      var k := rounds - 1;
      DistinctVisits(step, k);
      assert After(step, k).At?;
      assert After(step, k).pos !in Visited(step, k);
      assert Visited(step, rounds) == Visited(step, k) + {After(step, k).pos};
    }
  }

  /** The loop goes on only from positions in a bounded range. */
  ghost predicate Bounded(step: int -> Place, low: int, size: nat) {
    forall pos: int :: step(pos).At? ==> low <= pos < low + size
  }

  /** A bounded loop ends if and only if it meets no position twice. */
  lemma EndsExactlyWithoutRecurrence(step: int -> Place, low: int, size: nat)
    requires Bounded(step, low, size)
    ensures Ends(step) <==> !Recurs(step)
  {
    if Recurs(step) {
      RecurringNeverEnds(step);
    } else if !Ends(step) {
      DistinctVisits(step, size + 1);
      RangeFacts(low, size);
      forall x | x in Visited(step, size + 1)
        ensures x in Range(low, size)
      {
        var k: nat :| k < size + 1 && After(step, k).At? && After(step, k).pos == x;
        assert After(step, k + 1).At? && step(x).At?;
      }
      SubsetSize(Visited(step, size + 1), Range(low, size));
    }
  }

  /** Far before the data every slice is empty, and the loop is left. */
  lemma StepsAreBounded(data: Bytes)
    ensures Bounded(Loop(data), -|data| - 60, 2 * |data| + 60)
  {
    forall pos: int
      ensures Loop(data)(pos).At? ==> -|data| - 60 <= pos < |data|
    {
      assert Loop(data)(pos) == Round(HeaderFor(data, pos), |data|, pos);
      if pos + 60 <= -|data| {
        NothingFarBefore(data, pos);
      }
    }
  }

  lemma NothingFarBefore(data: Bytes, pos: int)
    requires pos + 60 <= -|data|
    ensures HeaderFor(data, pos) == BlankSize
  {
    var header := Slice(data, pos, pos + 60);
    assert header == [] && Slice(header, 48, 58) == [];
    assert Decode([]) == "" && Strip("") == "";
  }

  /** For every data: the loop ends if and only if it meets no position twice. */
  lemma LoopEndsExactly(data: Bytes)
    ensures Ends(Loop(data)) <==> !Recurs(Loop(data))
  {
    StepsAreBounded(data);
    EndsExactlyWithoutRecurrence(Loop(data), -|data| - 60, 2 * |data| + 60);
  }

  // ----- by the sizes met

  /** After some rounds the loop reads a header with this size, and its member fits. */
  ghost predicate Meets(header: Reader, length: nat, rounds: nat, size: int) {
    var place := After(Stepping(header, length), rounds);
    && place.At?
    && header(place.pos).Sized? && header(place.pos).size == size
    && place.pos < length && place.pos + 60 + size <= length
  }

  lemma MeetsAndMoves(header: Reader, length: nat, rounds: nat, size: int)
    requires Meets(header, length, rounds, size)
    ensures After(Stepping(header, length), rounds + 1) == At(NextPos(After(Stepping(header, length), rounds).pos, size))
  {
  }

  lemma {:induction false} Repeats(step: int -> Place, k: nat, n: nat)
    requires After(step, k).At? && step(After(step, k).pos) == After(step, k) && k <= n
    ensures After(step, n) == After(step, k)
    decreases n
  {
    if k < n {
      Repeats(step, k, n - 1);
    }
  }

  /** At a size of -60 or -61 the loop stands still for ever, whatever comes before or after. */
  lemma StandsStill(header: Reader, length: nat, k: nat, size: int, n: nat)
    requires Meets(header, length, k, size) && (size == -60 || size == -61) && k <= n
    ensures After(Stepping(header, length), n) == After(Stepping(header, length), k)
    ensures !Ends(Stepping(header, length))
  {
    MeetsAndMoves(header, length, k, size);
    RecurringNeverEnds(Stepping(header, length));
    Repeats(Stepping(header, length), k, n);
  }

  /** The loop goes on only by meeting a size. */
  lemma GoingOnMeets(header: Reader, length: nat, k: nat) returns (size: int)
    requires After(Stepping(header, length), k + 1).At?
    ensures Meets(header, length, k, size)
  {
    var place := After(Stepping(header, length), k);
    assert place.At? && After(Stepping(header, length), k + 1) == Round(header(place.pos), length, place.pos);
    size := header(place.pos).size;
  }

  ghost predicate AllAtLeast(header: Reader, length: nat, least: int) {
    forall n: nat, size: int | Meets(header, length, n, size) :: size >= least
  }

  lemma {:induction false} Advances(header: Reader, length: nat, j: nat, k: nat)
    requires AllAtLeast(header, length, -59)
    requires j < k && After(Stepping(header, length), k).At?
    ensures After(Stepping(header, length), j).At? && After(Stepping(header, length), j).pos < After(Stepping(header, length), k).pos
    decreases k
  {
    var size := GoingOnMeets(header, length, k - 1);
    MeetsAndMoves(header, length, k - 1, size);
    if j < k - 1 {
      Advances(header, length, j, k - 1);
    }
  }

  /** A loop that meets only sizes from -59 up always ends. */
  lemma AdvancingEnds(data: Bytes)
    requires AllAtLeast(Reading(data), |data|, -59)
    ensures Ends(Loop(data))
  {
    LoopEndsExactly(data);
    if j: nat, k: nat :| j < k && After(Loop(data), j).At? && After(Loop(data), j) == After(Loop(data), k) {
      Advances(Reading(data), |data|, j, k);
    }
  }

  /** A loop that meets no size below -61 ends if and only if it meets neither -60 nor -61. */
  lemma EndsUnlessItStandsStill(data: Bytes)
    requires AllAtLeast(Reading(data), |data|, -61)
    ensures Ends(Loop(data)) <==> AllAtLeast(Reading(data), |data|, -59)
  {
    if AllAtLeast(Reading(data), |data|, -59) {
      AdvancingEnds(data);
    } else {
      var n: nat, size: int :| Meets(Reading(data), |data|, n, size) && size < -59;
      StandsStill(Reading(data), |data|, n, size, n);
    }
  }

  /** The same on the headers that the parser is proved against: stuck exactly when the loop meets a size
      below -59, and otherwise the loop ends. */
  lemma {:induction false} WalkMeets(header: nat -> Header, reader: Reader, length: nat, pos: nat, k: nat)
    requires forall p: nat :: header(p) == reader(p)
    requires forall p: nat | header(p).Sized? :: p + 60 <= length
    requires After(Stepping(reader, length), k) == At(pos)
    ensures Walk(header, length, pos).stop.Stuck? ==> !AllAtLeast(reader, length, -59)
    ensures !Walk(header, length, pos).stop.Stuck? ==> Ends(Stepping(reader, length))
    decreases length - pos
  {
    var h := reader(pos);
    assert header(pos) == h;
    if pos < length && h.Sized? && pos + 60 + h.size <= length {
      assert Meets(reader, length, k, h.size);
      if h.size >= -59 {
        MeetsAndMoves(reader, length, k, h.size);
        WalkMeets(header, reader, length, NextPos(pos, h.size), k + 1);
      }
    } else {
      assert After(Stepping(reader, length), k + 1).Left?;
    }
  }

  /** The parser's result tells whether the loop ends, unless it met a size that moves back. */
  lemma ParserTellsTheEnd(data: Bytes)
    ensures !Scan(data, |MAGIC|).stop.Stuck? ==> Ends(Loop(data))
    ensures Scan(data, |MAGIC|).stop.Stuck? && AllAtLeast(Reading(data), |data|, -61) ==> !Ends(Loop(data))
  {
    forall p: nat
      ensures Headers(data)(p) == Reading(data)(p)
    {
      SameHeader(data, p);
    }
    assert After(Loop(data), 0) == At(|MAGIC|);
    WalkMeets(Headers(data), Reading(data), |data|, |MAGIC|, 0);
    if AllAtLeast(Reading(data), |data|, -61) {
      EndsUnlessItStandsStill(data);
    }
  }

  // ----- an archive on which it never ends

  /** The magic and one header: no name, no data, the size "-60". */
  function EndlessArchive(): Bytes {
    MAGIC + (Pad([], 48) + Pad([45, 54, 48], 10) + [96, 10])
  }

  lemma MinusSixty()
    ensures PyInt("-60") == Some(-60)
  {
    assert "-60"[1..] == "60";
    assert DropUnderscores("60") == "60" && "60"[..1] == "6" && "6"[..0] == "";
    assert Value("6") == 6 && Value("60") == 60;
  }

  lemma EndlessHeader()
    ensures |EndlessArchive()| == 68 && MAGIC <= EndlessArchive()
    ensures HeaderAt(EndlessArchive(), 8).Sized? && HeaderAt(EndlessArchive(), 8).size == -60
  {
    var data := EndlessArchive();
    var field := Pad([45, 54, 48], 10);
    assert data[56..66] == field;
    PaddingVanishes([45, 54, 48], 10);
    assert Decode([45, 54, 48]) == "-60";
    assert IsStripped("-60");
    StripFixpoint("-60");
    MinusSixty();
  }

  /** These 68 bytes keep the loop at position 8 for ever. */
  lemma SomeArchiveNeverEnds(n: nat)
    ensures |EndlessArchive()| == 68 && !Ends(Loop(EndlessArchive()))
    ensures After(Loop(EndlessArchive()), n) == At(8)
  {
    var data := EndlessArchive();
    EndlessHeader();
    SameHeader(data, 8);
    assert Meets(Reading(data), |data|, 0, -60);
    StandsStill(Reading(data), |data|, 0, -60, n);
  }
}
