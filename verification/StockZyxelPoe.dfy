/** PoE control of the stock-firmware switch over its web API. */
module StockZyxelPoe {
  import opened Options
  import opened Text
  import opened Decimal
  import opened VerifyWindow
  import StockWeb
  import PoeToggle

  const POLL_INTERVAL := 1.5

  /** The number of a port spelled "p5", "5", " P05 " and so on. */
  function PortNo(port: string): Option<nat> {
    var s := Lower(Strip(port));
    Number(if s != [] && s[0] == 'p' then s[1..] else s)
  }

  function Number(digits: string): Option<nat> {
    if digits == [] || !AllDigits(digits) || !(1 <= Value(digits) <= 8) then None else Some(Value(digits))
  }

  /** The uplink, port 1, is never toggled. */
  predicate IsProtected(port: string) {
    PortNo(port) == Some(1)
  }

  function Zeros(n: nat): string {
    seq(n, _ => '0')
  }

  lemma {:induction false} ZerosAreWorthless(n: nat)
    ensures AllDigits(Zeros(n)) && Value(Zeros(n)) == 0
  {
    if n > 0 {
      ZerosAreWorthless(n - 1);
      assert Zeros(n)[..n - 1] == Zeros(n - 1);
    }
  }

  lemma {:induction false} WorthlessIsZeros(s: string)
    requires AllDigits(s) && Value(s) == 0
    ensures s == Zeros(|s|)
  {
    if s != [] {
      WorthlessIsZeros(s[..|s| - 1]);
    }
  }

  /** A one-digit number is its digit behind any number of zeros. */
  lemma NumberExactly(digits: string, n: nat)
    requires 1 <= n <= 8
    ensures Number(digits) == Some(n) <==> exists zeros: nat :: digits == Zeros(zeros) + [DigitChar(n)]
  {
    if zeros: nat :| digits == Zeros(zeros) + [DigitChar(n)] {
      ZerosAreWorthless(zeros);
      assert digits[..|digits| - 1] == Zeros(zeros);
    }
    if Number(digits) == Some(n) {
      WorthlessIsZeros(digits[..|digits| - 1]);
      assert digits == Zeros(|digits| - 1) + [DigitChar(n)];
    }
  }

  /** The digits after the optional letter, before lower-casing. */
  function Digital(s: string): string {
    if s != [] && s[0] in {'p', 'P'} then s[1..] else s
  }

  lemma LowerKeepsNumbers(s: string)
    ensures Number(Lower(s)) == Number(s)
  {
    if forall i | 0 <= i < |s| :: Lower(s)[i] == s[i] {
      assert Lower(s) == s;
    } else {
      var i :| 0 <= i < |s| && Lower(s)[i] != s[i];
      assert !IsDigit(s[i]) && !IsDigit(Lower(s)[i]);
    }
  }

  lemma PortNoDigits(port: string)
    ensures PortNo(port) == Number(Digital(Strip(port)))
  {
    var s := Strip(port);
    if s != [] {
      assert Lower(s)[1..] == Lower(s[1..]);
    }
    LowerKeepsNumbers(Digital(s));
  }

  /** The spellings of a port: white space around an optional "p" or "P", zeros, and its digit. */
  ghost predicate Spells(port: string, n: nat)
    requires 1 <= n <= 8
  {
    exists zeros: nat ::
      var digits := Zeros(zeros) + [DigitChar(n)];
      Strip(port) == digits || Strip(port) == ['p'] + digits || Strip(port) == ['P'] + digits
  }

  lemma SpellingExactly(port: string, n: nat)
    requires 1 <= n <= 8
    ensures PortNo(port) == Some(n) <==> Spells(port, n)
  {
    var s := Strip(port);
    PortNoDigits(port);
    NumberExactly(Digital(s), n);
    forall zeros: nat
      ensures var digits := Zeros(zeros) + [DigitChar(n)];
              Digital(s) == digits <==> s == digits || s == ['p'] + digits || s == ['P'] + digits
    {
      DigitsBehindLetter(s, zeros, n);
    }
  }

  lemma DigitsBehindLetter(s: string, zeros: nat, n: nat)
    requires 1 <= n <= 8
    ensures var digits := Zeros(zeros) + [DigitChar(n)];
            Digital(s) == digits <==> s == digits || s == ['p'] + digits || s == ['P'] + digits
  {
    var digits := Zeros(zeros) + [DigitChar(n)];
    assert digits[0] == '0' || digits[0] == DigitChar(n);
    assert (['p'] + digits)[1..] == digits && (['P'] + digits)[1..] == digits;
    if Digital(s) == digits && s != digits {
      assert s == [s[0]] + digits;
    }
  }

  /** Exactly the spellings of port 1 are protected. */
  lemma ProtectedInEverySpelling(port: string)
    ensures IsProtected(port) <==> Spells(port, 1)
  {
    SpellingExactly(port, 1);
  }

  /** One reading of the row of the port, or the exception raised instead. */
  datatype Reading = Seen(state: string, mw: nat) | Raises

  datatype Sample = Sample(check: real, reading: Reading, now: real)

  function Wanted(enable: bool): string {
    if enable then "Enable" else "Disable"
  }

  /** Enabled and drawing power, or disabled and drawing none. */
  predicate Matches(enable: bool, state: string, mw: nat) {
    state == Wanted(enable) && (mw > 0 <==> enable)
  }

  function ViewOf(reading: Reading, enable: bool): View {
    match reading
    case Raises => Unreadable
    case Seen(state, mw) => if Matches(enable, state, mw) then Accepts else Waiting(state == Wanted(enable))
  }

  function DigestOf(reading: Reading): (string, int) {
    match reading
    case Raises => ("", 0)
    case Seen(state, mw) => (state, mw)
  }

  function PollOf(sample: Sample, enable: bool): Poll {
    Poll(sample.check, sample.now, DigestOf(sample.reading), ViewOf(sample.reading, enable))
  }

  function Observe(world: nat -> Sample, enable: bool): Trace {
    (k: nat) => PollOf(world(k), enable)
  }

  /** What the driver makes of one status page: a missing row raises. */
  function ReadingOf(answer: StockWeb.Answer<StockWeb.Page>, no: nat): Reading {
    match PoeToggle.RowIn(answer, no)
    case None => Raises
    case Some(row) => Seen(row.state, row.mw)
  }

  /** The clocks a call reads: at the tests of the toggle's polling loop that begins at `start`, and
      before and after each reading of the verification that begins at `started`. */
  datatype Clocks = Clocks(start: real, clock: nat -> real, started: real, check: nat -> real, now: nat -> real)

  ghost predicate Ticks(c: Clocks) {
    PoeToggle.Sleeps(c.start, c.clock) && c.started <= c.check(0) && forall k: nat :: TicksAt(c, k)
  }

  predicate TicksAt(c: Clocks, k: nat) {
    c.check(k) <= c.now(k) && c.now(k) + POLL_INTERVAL <= c.check(k + 1)
  }

  /** The verification's samples, taken from the readings of the web session. */
  function WorldOf(readings: PoeToggle.Readings, no: nat, c: Clocks): nat -> Sample {
    (k: nat) => Sample(c.check(k), ReadingOf(readings(k), no), c.now(k))
  }

  lemma ObservedAt(readings: PoeToggle.Readings, no: nat, c: Clocks, enable: bool, k: nat)
    ensures Observe(WorldOf(readings, no, c), enable)(k) == PollOf(Sample(c.check(k), ReadingOf(readings(k), no), c.now(k)), enable)
  {
  }

  lemma TicksAreRealistic(readings: PoeToggle.Readings, no: nat, c: Clocks, enable: bool)
    requires Ticks(c)
    ensures Realistic(WorldOf(readings, no, c), c.started, enable)
    ensures Shows(Observe(WorldOf(readings, no, c), enable), readings, no, enable, c)
  {
    var t := Observe(WorldOf(readings, no, c), enable);
    forall k: nat
      ensures PacedAt(t, POLL_INTERVAL, k)
    {
      assert TicksAt(c, k);
      ObservedAt(readings, no, c, enable, k);
      ObservedAt(readings, no, c, enable, k + 1);
    }
    ObservedAt(readings, no, c, enable, 0);
  }

  /** The clock never goes back and each round sleeps the poll interval. */
  ghost predicate Realistic(world: nat -> Sample, started: real, enable: bool) {
    Paced(Observe(world, enable), started, POLL_INTERVAL)
  }

  /** Within the window no verification takes more than 40 readings. */
  lemma ReadingsPerVerification(world: nat -> Sample, started: real, enable: bool, verdict: Verdict, k: nat)
    requires Paced(Observe(world, enable), started, 1.5)
    requires Ends(Observe(world, enable), started, verdict, k)
    ensures PollsMade(verdict, k) <= 40
  {
    if PollsMade(verdict, k) > 40 {
      PollsAreBounded(Observe(world, enable), started, 1.5, verdict, k, 40);
    }
  }

  /** The row is called frozen only if the wanted admin state has not been seen once, and admin state and
      power have both stayed unchanged for more than six seconds past the 35th. */
  lemma FrozenMeansNeverSeen(world: nat -> Sample, started: real, enable: bool, k: nat)
    requires Ends(Observe(world, enable), started, Frozen, k)
    ensures forall j: nat | j <= k :: world(j).reading.Seen? && world(j).reading.state != (if enable then "Enable" else "Disable")
    ensures world(k).now > started + 41.0
    ensures exists m: nat :: UnchangedSpan(world, started, m, k)
  {
    var t := Observe(world, enable);
    FrozenIsSound(t, started, k);
    forall j: nat | j <= k
      ensures world(j).reading.Seen? && world(j).reading.state != Wanted(enable)
    {
      assert t(j).view == ViewOf(world(j).reading, enable);
    }
    var m: nat :| FrozenSpan(t, started, m, k);
    forall j: nat | m - 1 <= j <= k
      ensures world(j).reading == world(k).reading
    {
      assert t(j).digest == t(k).digest && t(j).digest == DigestOf(world(j).reading) && t(k).digest == DigestOf(world(k).reading);
    }
    assert UnchangedSpan(world, started, m, k);
  }

  ghost predicate UnchangedSpan(world: nat -> Sample, started: real, m: nat, k: nat) {
    && 1 <= m < k && world(m).now >= started + 35.0 && world(k).now - world(m).now > 6.0
    && forall j: nat | m - 1 <= j <= k :: world(j).reading == world(k).reading
  }

  /** A row that does not change and does not have the wanted admin state is called frozen, when rounds take
      at most `d` with 41 + 2d at most 60. */
  lemma UnchangedIsFrozen(world: nat -> Sample, started: real, enable: bool, d: real, verdict: Verdict, k: nat)
    requires Paced(Observe(world, enable), started, 1.5) && Prompt(Observe(world, enable), started, d) && 41.0 + 2.0 * d <= 60.0
    requires forall j: nat :: world(j).reading == world(0).reading && world(0).reading.Seen?
    requires world(0).reading.state != (if enable then "Enable" else "Disable")
    requires Ends(Observe(world, enable), started, verdict, k)
    ensures verdict == Frozen
  {
    var t := Observe(world, enable);
    forall j: nat
      ensures t(j).view == Waiting(false) && t(j).digest == t(0).digest
    {
      assert world(j).reading == world(0).reading;
    }
    FrozenIsComplete(t, started, 1.5, d, verdict, k);
  }

  /** A row that has the wanted admin state, but not the wanted power, ends the verification unverified: it
      is no success, and no wedge either. */
  lemma PowerPendingEndsUnverified(world: nat -> Sample, started: real, enable: bool, verdict: Verdict, k: nat)
    requires forall j: nat :: world(j).reading.Seen? && world(j).reading.state == (if enable then "Enable" else "Disable")
    requires forall j: nat :: (world(j).reading.mw == 0 <==> enable)
    requires Ends(Observe(world, enable), started, verdict, k)
    ensures verdict == Unverified
  {
    var t := Observe(world, enable);
    assert t(k).view == ViewOf(world(k).reading, enable);
  }

  datatype Outcome =
    | Done
    | NoOp                               // already enabled, nothing attached
    | InvalidPort
    | Refused                            // protected port
    | LockBusy
    | RowUnavailable
    | ToggleFailed(toggle: PoeToggle.Toggle)
    | NotReflected(verdict: Verdict)

  /** When `_set` ends how, on given replies from request `i` on: the outcome, the forms posted, and the
      number of requests sent by then. */
  ghost predicate SetEnds(replies: StockWeb.Replies, i: nat, token: string, port: string, enable: bool, locked: bool, c: Clocks,
                          outcome: Outcome, forms: seq<StockWeb.Request>, finish: nat) {
    if PortNo(port) == None then outcome == InvalidPort && forms == [] && finish == i
    else if IsProtected(port) then outcome == Refused && forms == [] && finish == i
    else if !locked then outcome == LockBusy && forms == [] && finish == i
    else
      var no := PortNo(port).value;
      SwitchEnds(PoeToggle.RowIn(PoeToggle.StatusRun(replies, i).answer, no), replies, PoeToggle.AfterStatus(replies, i),
                 StockWeb.TokenAfter(replies, i, token), no, enable, c, outcome, forms, finish)
  }

  /** From the row seen at first on. */
  ghost predicate SwitchEnds(before: Option<StockWeb.Row>, replies: StockWeb.Replies, i: nat, token: string, no: nat, enable: bool, c: Clocks,
                             outcome: Outcome, forms: seq<StockWeb.Request>, finish: nat) {
    if before == None then outcome == RowUnavailable && forms == [] && finish == i
    else if enable && before.value.state == "Enable" && before.value.mw == 0 then outcome == NoOp && forms == [] && finish == i
    else exists toggle: PoeToggle.Toggle, end: nat ::
      && PoeToggle.ToggleEnds(replies, i, token, PoeToggle.Order(no, enable, "", ""), c.start, c.clock, forms, toggle, end)
      && VerifyEnds(toggle, PoeToggle.PollsFrom(replies, end), PoeToggle.ReadingsFrom(replies, end), no, enable, c, outcome, finish)
  }

  /** From the end of the toggle on. */
  ghost predicate VerifyEnds(toggle: PoeToggle.Toggle, polls: nat -> nat, readings: PoeToggle.Readings, no: nat, enable: bool, c: Clocks,
                             outcome: Outcome, finish: nat) {
    if !toggle.Verified? then outcome == ToggleFailed(toggle) && finish == polls(0)
    else exists verdict: Verdict, k: nat ::
      && Ends(Observe(WorldOf(readings, no, c), enable), c.started, verdict, k)
      && outcome == OutcomeOf(verdict) && finish == polls(PollsMade(verdict, k))
  }

  function OutcomeOf(verdict: Verdict): Outcome {
    if verdict.Reflected? then Done else NotReflected(verdict)
  }

  /** The trace shows these readings at these clocks. */
  ghost predicate Shows(t: Trace, readings: PoeToggle.Readings, no: nat, enable: bool, c: Clocks) {
    forall k: nat :: ShowsAt(t, readings, no, enable, c, k)
  }

  predicate ShowsAt(t: Trace, readings: PoeToggle.Readings, no: nat, enable: bool, c: Clocks, k: nat) {
    t(k) == PollOf(Sample(c.check(k), ReadingOf(readings(k), no), c.now(k)), enable)
  }

  lemma FortyRounds(t: Trace, started: real, n: nat)
    requires Paced(t, started, POLL_INTERVAL) && t(n).check < started + VERIFY_TIMEOUT
    ensures n <= 40
  {
    RoundsLeft(t, started, POLL_INTERVAL, n);
  }

  /** One snapshot. */
  method Look(client: StockWeb.Client, no: nat, enable: bool, c: Clocks, ghost t: Trace, ghost polls: nat -> nat, ghost readings: PoeToggle.Readings, n: nat)
      returns (poll: Poll)
    requires !client.inLogin && Shows(t, readings, no, enable, c)
    requires PoeToggle.Follows(client.server.replies, polls, readings) && |client.server.log| == polls(n)
    modifies client, client.server
    ensures !client.inLogin
    ensures PoeToggle.Forms(client.server.log) == PoeToggle.Forms(old(client.server.log))
    ensures poll == t(n) && |client.server.log| == polls(n + 1)
    ensures t(n + 1).check == c.check(n + 1)
    ensures Paced(t, c.started, POLL_INTERVAL) && c.check(n) < c.started + VERIFY_TIMEOUT ==> n <= 40
  {
    assert ShowsAt(t, readings, no, enable, c, n) && ShowsAt(t, readings, no, enable, c, n + 1);
    if Paced(t, c.started, POLL_INTERVAL) && c.check(n) < c.started + VERIFY_TIMEOUT {
      FortyRounds(t, c.started, n);
    }
    var page := PoeToggle.ReadNext(client, polls, readings, n);
    poll := PollOf(Sample(c.check(n), ReadingOf(page, no), c.now(n)), enable);
  }

  /** `_verify`, on the readings it takes itself. */
  method Verify(client: StockWeb.Client, no: nat, enable: bool, c: Clocks, ghost t: Trace, ghost polls: nat -> nat, ghost readings: PoeToggle.Readings)
      returns (verdict: Verdict, ghost k: nat)
    requires !client.inLogin && Shows(t, readings, no, enable, c) && Paced(t, c.started, POLL_INTERVAL)
    requires PoeToggle.Follows(client.server.replies, polls, readings) && |client.server.log| == polls(0)
    modifies client, client.server
    ensures !client.inLogin
    ensures PoeToggle.Forms(client.server.log) == PoeToggle.Forms(old(client.server.log))
    ensures Ends(t, c.started, verdict, k)
    ensures |client.server.log| == polls(PollsMade(verdict, k))
  {
    var deadline := c.started + VERIFY_TIMEOUT;
    var frozenSince: Option<real> := None;
    var lastDigest: Option<(string, int)> := None;
    var stateSeen := false;
    var n := 0;
    assert ShowsAt(t, readings, no, enable, c, 0);
    while c.check(n) < deadline
      invariant n >= 0 && !client.inLogin && t(n).check == c.check(n)
      invariant PoeToggle.Forms(client.server.log) == PoeToggle.Forms(old(client.server.log))
      invariant |client.server.log| == polls(n)
      invariant Ongoing(t, c.started, n, stateSeen, frozenSince, lastDigest)
      decreases 41 - n
    {
      var poll := Look(client, no, enable, c, t, polls, readings, n);
      var stop;
      stop, stateSeen, frozenSince, lastDigest := Judge(t, poll, c.started, POLL_INTERVAL, n, stateSeen, frozenSince, lastDigest);
      if stop.Some? {
        return stop.value, n;
      }
      n := n + 1;
    }
    verdict, k := Unverified, n;
  }

  /** `_set`: `locked` tells whether the switch-wide lock was obtained in time. */
  method Set(client: StockWeb.Client, port: string, enable: bool, locked: bool, c: Clocks)
      returns (outcome: Outcome, ghost forms: seq<StockWeb.Request>)
    requires !client.inLogin && Ticks(c)
    modifies client, client.server
    ensures !client.inLogin
    ensures PoeToggle.Forms(client.server.log) == PoeToggle.Forms(old(client.server.log)) + forms
    ensures SetEnds(client.server.replies, |old(client.server.log)|, old(client.xssid), port, enable, locked, c, outcome, forms, |client.server.log|)
    ensures outcome in {InvalidPort, Refused, LockBusy} ==> client.server.log == old(client.server.log)
  {
    forms := [];
    var no := PortNo(port);
    if no == None {
      return InvalidPort, [];
    }
    if IsProtected(port) {
      return Refused, [];
    }
    if !locked {
      return LockBusy, [];
    }
    outcome, forms := Switch(client, no.value, enable, c);
  }

  /** The part of `_set` under the lock. */
  method Switch(client: StockWeb.Client, no: nat, enable: bool, c: Clocks) returns (outcome: Outcome, ghost forms: seq<StockWeb.Request>)
    requires !client.inLogin && Ticks(c)
    modifies client, client.server
    ensures !client.inLogin
    ensures PoeToggle.Forms(client.server.log) == PoeToggle.Forms(old(client.server.log)) + forms
    ensures var replies := client.server.replies; var i := |old(client.server.log)|;
            SwitchEnds(PoeToggle.RowIn(PoeToggle.StatusRun(replies, i).answer, no), replies, PoeToggle.AfterStatus(replies, i),
                       StockWeb.TokenAfter(replies, i, old(client.xssid)), no, enable, c, outcome, forms, |client.server.log|)
    ensures outcome !in {InvalidPort, Refused, LockBusy}
  {
    forms := [];
    var status := PoeToggle.ReadStatus(client);
    var pre := PoeToggle.RowIn(status, no);
    if pre == None {
      return RowUnavailable, [];
    }
    if enable && pre.value.state == "Enable" && pre.value.mw == 0 {
      return NoOp, [];
    }
    outcome, forms := ToggleAndVerify(client, no, enable, c);
  }

  method ToggleAndVerify(client: StockWeb.Client, no: nat, enable: bool, c: Clocks) returns (outcome: Outcome, ghost forms: seq<StockWeb.Request>)
    requires !client.inLogin && Ticks(c)
    modifies client, client.server
    ensures !client.inLogin
    ensures PoeToggle.Forms(client.server.log) == PoeToggle.Forms(old(client.server.log)) + forms
    ensures exists toggle: PoeToggle.Toggle, end: nat ::
              && PoeToggle.ToggleEnds(client.server.replies, |old(client.server.log)|, old(client.xssid), PoeToggle.Order(no, enable, "", ""),
                                      c.start, c.clock, forms, toggle, end)
              && VerifyEnds(toggle, PoeToggle.PollsFrom(client.server.replies, end), PoeToggle.ReadingsFrom(client.server.replies, end),
                            no, enable, c, outcome, |client.server.log|)
    ensures outcome.ToggleFailed? || outcome.Done? || outcome.NotReflected?
  {
    var toggle;
    toggle, forms := PoeToggle.SetPoeState(client, no, enable, "", "", c.start, c.clock);
    if !toggle.Verified? {
      return ToggleFailed(toggle), forms;
    }
    ghost var end := |client.server.log|;
    PoeToggle.FollowsFrom(client.server.replies, end);
    ghost var readings := PoeToggle.ReadingsFrom(client.server.replies, end);
    ghost var t := Observe(WorldOf(readings, no, c), enable);
    TicksAreRealistic(readings, no, c, enable);
    ghost var k;
    var verdict;
    verdict, k := Verify(client, no, enable, c, t, PoeToggle.PollsFrom(client.server.replies, end), readings);
    outcome := OutcomeOf(verdict);
  }
}
