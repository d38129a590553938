/** What a toggle that returns normally has shown, and what it has not. */
module PoeEvidence {
  import opened Options
  import opened Decimal
  import opened StockWeb
  import opened PoeToggle

  /** However a toggle ends, whatever the switch answers: it has posted exactly when the first status page
      shows the port with codes for both settings, and then nothing but the full form of that row, once or
      twice; it refuses with an unknown display value exactly when that page shows the port without. */
  lemma PostsExactlyWhenCoded(replies: Replies, i: nat, token: string, o: Order, start: real, clock: nat -> real,
                              forms: seq<Request>, result: Toggle, end: nat)
    requires ToggleEnds(replies, i, token, o, start, clock, forms, result, end)
    ensures var row := RowIn(StatusRun(replies, i).answer, o.port);
            && (forms != [] <==> row.Some? && Coded(row.value, o))
            && (forms != [] ==> Posted(forms, FormFor(row.value, o.port, o.enabled, o.priority, o.powerup).value))
            && (result == UnknownDisplay <==> row.Some? && !Coded(row.value, o))
    ensures |forms| <= 2 && forall f | f in forms :: f.PostForm? && f.cmd == 775
  {
    EndsPost(replies, i, token, o, Intended(o), start, clock, forms, result, end);
    RefusedExactlyWhenUncoded(StatusRun(replies, i).answer, o, forms, result);
  }

  /** A status reading asks for page 773, and returns the reply to that question. */
  lemma StatusIsPage773(replies: Replies, i: nat)
    ensures var run := StatusRun(replies, i); var last := |run.sent| - 1;
            && last >= 0 && run.sent[0] == GetPage(773)
            && (run.answer.Ok? ==> run.sent[last] == GetPage(773) && replies(i + last) == Body(run.answer.value))
  {
    FetchReturnsWhatItAskedFor(replies, i, GetPage(773));
  }

  const PRIORITIES := ["Critical", "High", "Medium", "Low"]
  const POWER_MODES := ["802.3af", "Legacy", "Pre-802.3at", "802.3at"]

  /** The full form of a row: the port, the admin state asked for, and the displayed priority and power mode
      as their positions in the lists of the switch; the other three settings are constants. */
  lemma FormOfRow(row: Row, port: nat, enabled: bool, priority: nat, mode: nat)
    requires priority < 4 && mode < 4 && row.priority == PRIORITIES[priority] && row.powerup == POWER_MODES[mode]
    ensures FormFor(row, port, enabled, "", "") ==
            Some([("portlist", Digits(port)), ("state", if enabled then "1" else "0"),
                  ("portPriority", ["0", "1", "2", "3"][priority]), ("portPowerMode", ["0", "1", "2", "3"][mode]),
                  ("portLimitMode", "0"), ("portRangeDetection", ""), ("poeTimeRange", "")])
  {
    PriorityCodes();
    PowerModeCodes();
  }

  lemma PriorityCodes()
    ensures forall i: nat | i < 4 :: PriorityCode(PRIORITIES[i]) == Some(["0", "1", "2", "3"][i])
  {
    assert "Critical"[0] == 'C' && "High"[0] == 'H' && "Medium"[0] == 'M' && "Low"[0] == 'L';
  }

  lemma PowerModeCodes()
    ensures forall i: nat | i < 4 :: PowerModeCode(POWER_MODES[i]) == Some(["0", "1", "2", "3"][i])
  {
    assert |"802.3af"| == 7 && |"Legacy"| == 6 && |"Pre-802.3at"| == 11 && |"802.3at"| == 7;
    assert "802.3af"[6] == 'f' && "802.3at"[6] == 't';
  }

  /** A row has no form exactly when its priority or its power mode is in neither list; an override takes
      the place of what is displayed. */
  lemma FormExists(row: Row, port: nat, enabled: bool, priority: string, powerup: string)
    ensures FormFor(row, port, enabled, "", "").Some? <==> row.priority in PRIORITIES && row.powerup in POWER_MODES
    ensures FormFor(row, port, enabled, priority, powerup) ==
            FormFor(row.(priority := if priority != "" then priority else row.priority,
                         powerup := if powerup != "" then powerup else row.powerup), port, enabled, "", "")
  {
    PriorityCodes();
    PowerModeCodes();
    assert PRIORITIES[0] == "Critical" && PRIORITIES[1] == "High" && PRIORITIES[2] == "Medium" && PRIORITIES[3] == "Low";
    assert POWER_MODES[0] == "802.3af" && POWER_MODES[1] == "Legacy" && POWER_MODES[2] == "Pre-802.3at" && POWER_MODES[3] == "802.3at";
  }

  /** A toggle waits half a minute for its evidence: every reading is taken within it, and a toggle that ends
      unverified has used all of it. */
  lemma ToggleWaitsHalfAMinute(readings: Readings, port: nat, enabled: bool, start: real, clock: nat -> real, result: Toggle, n: nat)
    requires AwaitEnds(readings, port, enabled, start, clock, result, n)
    ensures forall m: nat | m < n :: clock(m) < start + 30.0
    ensures result == NotVerified <==> clock(n) >= start + 30.0
  {
    forall m: nat | m < n
      ensures clock(m) < start + 30.0
    {
      assert Fruitless(readings, port, enabled, start, clock, m);
    }
  }

  /** The first evidence ends the wait: no reading before the last raised or had the port drawing power, for an
      enable, or in the state "Disable", for a disable; a missing row is waited out like any other. */
  lemma FirstEvidenceEndsTheWait(readings: Readings, port: nat, enabled: bool, start: real, clock: nat -> real, result: Toggle, n: nat)
    requires AwaitEnds(readings, port, enabled, start, clock, result, n)
    ensures forall m: nat | m < n :: readings(m).Ok? && !ShowsAsked(readings(m).value, port, enabled)
    ensures result.Verified? <==> clock(n) < start + 30.0 && readings(n).Ok? && ShowsAsked(readings(n).value, port, enabled)
    ensures result.Verified? ==> result.row == readings(n).value.rows[port]
    ensures result.WebError? <==> clock(n) < start + 30.0 && readings(n).Raised?
    ensures result.WebError? ==> readings(n) == Raised(result.error)
  {
    forall m: nat | m < n
      ensures readings(m).Ok? && !ShowsAsked(readings(m).value, port, enabled)
    {
      assert Fruitless(readings, port, enabled, start, clock, m);
    }
  }

  predicate ShowsAsked(page: Page, port: nat, enabled: bool) {
    port in page.rows && if enabled then page.rows[port].mw > 0 else page.rows[port].state == "Disable"
  }

  /** The reading shows the port both enabled and drawing power. */
  predicate ShowsBoth(reading: Answer<Page>, port: nat) {
    RowIn(reading, port).Some? && RowIn(reading, port).value.mw > 0 && RowIn(reading, port).value.state == "Enable"
  }

  predicate NotYet(readings: Readings, port: nat, start: real, clock: nat -> real, n: nat) {
    InTime(start, clock, n) && readings(n).Ok? && !ShowsBoth(readings(n), port)
  }

  /** Some reading in time shows power on a row that is not enabled, before any that shows both. */
  ghost predicate Misleads(readings: Readings, port: nat, start: real, clock: nat -> real) {
    exists n: nat :: MisleadsAt(readings, port, start, clock, n)
  }

  ghost predicate MisleadsAt(readings: Readings, port: nat, start: real, clock: nat -> real, n: nat) {
    && InTime(start, clock, n)
    && RowIn(readings(n), port).Some? && RowIn(readings(n), port).value.mw > 0 && RowIn(readings(n), port).value.state != "Enable"
    && forall m: nat | m < n :: NotYet(readings, port, start, clock, m)
  }

  /** The first of some readings that shows power ends an enable. */
  lemma {:induction false} FirstPower(readings: Readings, port: nat, start: real, clock: nat -> real, n: nat) returns (m: nat)
    requires forall j: nat | j < n :: NotYet(readings, port, start, clock, j)
    requires InTime(start, clock, n) && RowIn(readings(n), port).Some? && RowIn(readings(n), port).value.mw > 0
    ensures m <= n && RowIn(readings(m), port).Some?
    ensures AwaitEnds(readings, port, true, start, clock, Verified(RowIn(readings(m), port).value), m)
  {
    if j: nat :| j < n && RowIn(readings(j), port).Some? && RowIn(readings(j), port).value.mw > 0 {
      assert NotYet(readings, port, start, clock, j);
      m := FirstPower(readings, port, start, clock, j);
    } else {
      m := n;
      forall j: nat | j < n
        ensures Fruitless(readings, port, true, start, clock, j)
      {
        assert NotYet(readings, port, start, clock, j);
      }
    }
  }

  /** For every switch: an enable that returns normally has shown the port enabled, if and only if the
      switch does not mislead. */
  lemma EnableShowsEnabledExactly(readings: Readings, port: nat, start: real, clock: nat -> real)
    ensures (forall row: Row, n: nat | AwaitEnds(readings, port, true, start, clock, Verified(row), n) :: row.state == "Enable")
            <==> !Misleads(readings, port, start, clock)
  {
    if n: nat :| MisleadsAt(readings, port, start, clock, n) {
      var m := FirstPower(readings, port, start, clock, n);
      assert m < n ==> NotYet(readings, port, start, clock, m);
    } else {
      forall row: Row, n: nat | AwaitEnds(readings, port, true, start, clock, Verified(row), n)
        ensures row.state == "Enable"
      {
        forall m: nat | m < n
          ensures NotYet(readings, port, start, clock, m)
        {
          assert Fruitless(readings, port, true, start, clock, m);
        }
        assert !MisleadsAt(readings, port, start, clock, n);
      }
    }
  }

  /** The same of the whole toggle, however it got to its polling loop. */
  lemma ToggleShowsEnabledExactly(prepared: Prepared, replies: Replies, o: Order, start: real, clock: nat -> real)
    requires o.enabled && prepared.Poll?
    ensures (forall row: Row, end: nat | PreparedEnds(prepared, replies, o, start, clock, prepared.forms, Verified(row), end) :: row.state == "Enable")
            <==> !Misleads(ReadingsFrom(replies, prepared.from), o.port, start, clock)
  {
    var readings := ReadingsFrom(replies, prepared.from);
    EnableShowsEnabledExactly(readings, o.port, start, clock);
    forall row: Row, n: nat | AwaitEnds(readings, o.port, true, start, clock, Verified(row), n)
      ensures PreparedEnds(prepared, replies, o, start, clock, prepared.forms, Verified(row), PollsFrom(replies, prepared.from)(n + 1))
    {
      assert ReadingsMade(Verified(row), n) == n + 1;
    }
  }

  // ----- what a toggle that returns normally was served

  lemma {:induction false} PollsGrow(replies: Replies, polls: nat -> nat, readings: Readings, a: nat, b: nat)
    requires Follows(replies, polls, readings) && a <= b
    ensures polls(a) <= polls(b)
    decreases b
  {
    if a < b {
      PollsGrow(replies, polls, readings, a, b - 1);
      assert FollowsAt(replies, polls, readings, b - 1);
    }
  }

  /** A status page is the reply to the last request of its reading. */
  lemma StatusIsAPage(replies: Replies, at: nat, answer: Answer<Page>)
    requires answer == StatusRun(replies, at).answer
    ensures AfterStatus(replies, at) > at
    ensures answer.Ok? ==> replies(AfterStatus(replies, at) - 1) == Body(answer.value)
  {
    LastReply(replies, at, GetPage(STATUS_CMD));
  }

  lemma ReadingIsAPage(replies: Replies, polls: nat -> nat, readings: Readings, n: nat)
    requires Follows(replies, polls, readings)
    ensures polls(0) <= polls(n) < polls(n + 1)
    ensures readings(n).Ok? ==> replies(polls(n + 1) - 1) == Body(readings(n).value)
  {
    PollsGrow(replies, polls, readings, 0, n);
    assert FollowsAt(replies, polls, readings, n);
    StatusIsAPage(replies, polls(n), readings(n));
  }

  /** The page has this row for the port, and the row shows the change. */
  predicate ShowsChange(reply: Reply, port: nat, enabled: bool, row: Row) {
    reply.Body? && port in reply.page.rows && reply.page.rows[port] == row && Evidence(enabled, row)
  }

  /** Where a prepared toggle stands: the number of requests sent by then. */
  function Stands(prepared: Prepared): nat {
    if prepared.Stop? then prepared.at else prepared.from
  }

  lemma ProceedGrows(replies: Replies, i: nat, token: string, intent: Intent)
    ensures Stands(Proceed(replies, i, token, intent)) >= i
  {
  }

  lemma PrepareGrows(replies: Replies, i: nat, token: string, intentOn: Answer<Page> -> Intent)
    ensures Stands(Prepare(replies, i, token, intentOn)) >= AfterStatus(replies, i) > i
  {
    StatusIsAPage(replies, i, StatusRun(replies, i).answer);
    ProceedGrows(replies, AfterStatus(replies, i), TokenAfter(replies, i, token), intentOn(StatusRun(replies, i).answer));
  }

  lemma PolledOnAPage(replies: Replies, polls: nat -> nat, readings: Readings, o: Order, start: real, clock: nat -> real, result: Toggle, end: nat)
    requires Follows(replies, polls, readings) && PollEnds(polls, readings, o, start, clock, result, end)
    ensures end >= polls(0) && (result.Verified? || result.NotVerified? || result.WebError?)
    ensures result.Verified? ==> end > polls(0) && ShowsChange(replies(end - 1), o.port, o.enabled, result.row)
  {
    var n: nat :| AwaitEnds(readings, o.port, o.enabled, start, clock, result, n) && end == polls(ReadingsMade(result, n));
    PollsGrow(replies, polls, readings, 0, ReadingsMade(result, n));
    ReadingIsAPage(replies, polls, readings, n);
  }

  lemma PreparedOnAPage(prepared: Prepared, replies: Replies, o: Order, start: real, clock: nat -> real,
                        forms: seq<Request>, result: Toggle, end: nat)
    requires PreparedEnds(prepared, replies, o, start, clock, forms, result, end)
    ensures end >= Stands(prepared)
    ensures prepared.Poll? && result.Verified? ==> end > Stands(prepared) && ShowsChange(replies(end - 1), o.port, o.enabled, result.row)
    ensures prepared.Poll? ==> result.Verified? || result.NotVerified? || result.WebError?
  {
    if prepared.Poll? {
      FollowsFrom(replies, prepared.from);
      PolledOnAPage(replies, PollsFrom(replies, prepared.from), ReadingsFrom(replies, prepared.from), o, start, clock, result, end);
    }
  }

  /** Intents that give up never claim success. */
  ghost predicate Honest(intentOn: Answer<Page> -> Intent) {
    forall status :: intentOn(status).Nothing? ==> !intentOn(status).result.Verified?
  }

  lemma IntendedIsHonest(o: Order)
    ensures Honest(Intended(o))
  {
    forall status
      ensures Intended(o)(status).Nothing? ==> !Intended(o)(status).result.Verified?
    {
      NothingIsNotVerified(status, o);
    }
  }

  lemma NothingIsNotVerified(status: Answer<Page>, o: Order)
    ensures IntentOn(status, o).Nothing? ==> !IntentOn(status, o).result.Verified?
  {
  }

  lemma HonestWasServed(replies: Replies, i: nat, token: string, o: Order, intentOn: Answer<Page> -> Intent, start: real, clock: nat -> real,
                        forms: seq<Request>, result: Toggle, end: nat, prepared: Prepared)
    requires prepared == Prepare(replies, i, token, intentOn) && Honest(intentOn)
    requires PreparedEnds(prepared, replies, o, start, clock, forms, result, end)
    ensures i < Stands(prepared) <= end
    ensures result.Verified? ==>
              && prepared.Poll? && Stands(prepared) < end
              && 1 <= |forms| <= 2 && ShowsChange(replies(end - 1), o.port, o.enabled, result.row)
    ensures intentOn(StatusRun(replies, i).answer).Send? ==> result.Verified? || result.NotVerified? || result.WebError?
  {
    PrepareGrows(replies, i, token, intentOn);
    PreparedPosts(replies, i, token, intentOn, prepared);
    PreparedOnAPage(prepared, replies, o, start, clock, forms, result, end);
  }

  /** A toggle that returns normally polled after its last form, and the very last page it received is the
      evidence: the row it returns, which shows power for an enable and the state "Disable" for a disable. */
  lemma VerifiedWasServed(replies: Replies, i: nat, token: string, o: Order, start: real, clock: nat -> real,
                          forms: seq<Request>, row: Row, end: nat)
    requires ToggleEnds(replies, i, token, o, start, clock, forms, Verified(row), end)
    ensures var prepared := Prepare(replies, i, token, Intended(o));
            prepared.Poll? && i < prepared.from < end && forms == prepared.forms && 1 <= |forms| <= 2
    ensures replies(end - 1).Body? && o.port in replies(end - 1).page.rows && replies(end - 1).page.rows[o.port] == row
    ensures if o.enabled then row.mw > 0 else row.state == "Disable"
  {
    IntendedIsHonest(o);
    HonestWasServed(replies, i, token, o, Intended(o), start, clock, forms, Verified(row), end, Prepare(replies, i, token, Intended(o)));
  }

  // ----- a switch that misleads

  const SLY_ROW := Row("Disable", "", "Low", "802.3at", 5)

  /** Every page shows the port disabled and drawing power. */
  function SlySwitch(port: nat): Replies {
    (n: nat) => Body(Page(false, None, false, None, map[port := SLY_ROW]))
  }

  lemma SlyReadings(port: nat, i: nat, n: nat)
    ensures FetchRun(SlySwitch(port), i, GetPage(STATUS_CMD)) == Run([GetPage(STATUS_CMD)], Ok(Page(false, None, false, None, map[port := SLY_ROW])))
    ensures RowIn(ReadingsFrom(SlySwitch(port), i)(n), port) == Some(SLY_ROW)
  {
  }

  /** On it every enable returns normally, with a row that says "Disable". */
  lemma EnablePassesDisabledRow(port: nat, i: nat, token: string, start: real, clock: nat -> real,
                                forms: seq<Request>, result: Toggle, end: nat)
    requires Sleeps(start, clock) && InTime(start, clock, 0)
    requires ToggleEnds(SlySwitch(port), i, token, Order(port, true, "", ""), start, clock, forms, result, end)
    ensures result == Verified(SLY_ROW) && SLY_ROW.state == "Disable"
  {
    var replies := SlySwitch(port);
    SlyReadings(port, i, 0);
    var p := Prepare(replies, i, token, Intended(Order(port, true, "", "")));
    assert Coded(SLY_ROW, Order(port, true, "", ""));
    assert p.Poll?;
    SlyReadings(port, p.from, 0);
    var readings := ReadingsFrom(replies, p.from);
    var n: nat :| AwaitEnds(readings, port, true, start, clock, result, n);
    assert !Fruitless(readings, port, true, start, clock, 0);
  }

  /** No power on the port, on this page. */
  predicate Powerless(reply: Reply, port: nat) {
    reply.Body? && port in reply.page.rows ==> reply.page.rows[port].mw == 0
  }
}
