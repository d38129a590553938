/** What the end of a set on the stock switch says about the pages it was served. */
module StockEvidence {
  import opened Options
  import opened VerifyWindow
  import opened StockWeb
  import opened PoeToggle
  import opened PoeEvidence
  import opened StockZyxelPoe

  /** The page shows the port as requested. */
  predicate Reflects(reply: Reply, no: nat, enable: bool) {
    && reply.Body? && no in reply.page.rows
    && reply.page.rows[no].state == (if enable then "Enable" else "Disable")
    && (reply.page.rows[no].mw > 0 <==> enable)
  }

  /** The verification is over at the first page that shows the port as requested, or that cannot be read or
      lacks the port; the verdict says which. */
  lemma FirstMatchEndsTheVerification(readings: Readings, no: nat, enable: bool, c: Clocks, verdict: Verdict, k: nat)
    requires Ends(Observe(WorldOf(readings, no, c), enable), c.started, verdict, k)
    ensures forall j: nat | j < k :: readings(j).Ok? && no in readings(j).value.rows && !Reflects(Body(readings(j).value), no, enable)
    ensures verdict == Reflected <==> c.check(k) < c.started + 60.0 && readings(k).Ok? && Reflects(Body(readings(k).value), no, enable)
    ensures verdict == Broken <==> c.check(k) < c.started + 60.0 && (readings(k).Raised? || no !in readings(k).value.rows)
  {
    var t := Observe(WorldOf(readings, no, c), enable);
    ObservedAt(readings, no, c, enable, k);
    forall j: nat | j < k
      ensures readings(j).Ok? && no in readings(j).value.rows && !Reflects(Body(readings(j).value), no, enable)
    {
      assert GoesOn(t, c.started, j);
      ObservedAt(readings, no, c, enable, j);
    }
  }

  lemma ReflectedReading(readings: Readings, no: nat, enable: bool, c: Clocks, k: nat)
    requires Ends(Observe(WorldOf(readings, no, c), enable), c.started, Reflected, k)
    ensures readings(k).Ok? && no in readings(k).value.rows
    ensures Matches(enable, readings(k).value.rows[no].state, readings(k).value.rows[no].mw)
  {
    ObservedAt(readings, no, c, enable, k);
  }

  /** The verification after a toggle: when it ended well, the very last page it received reflects the
      request. */
  lemma VerifiedOnAPage(replies: Replies, polls: nat -> nat, readings: Readings, toggle: Toggle, no: nat, enable: bool, c: Clocks,
                        outcome: Outcome, finish: nat)
    requires Follows(replies, polls, readings)
    requires VerifyEnds(toggle, polls, readings, no, enable, c, outcome, finish)
    ensures finish >= polls(0) && (outcome.ToggleFailed? <==> !toggle.Verified?)
    ensures outcome.Done? ==> finish > polls(0) && Reflects(replies(finish - 1), no, enable)
  {
    if toggle.Verified? {
      var verdict: Verdict, k: nat :|
        && Ends(Observe(WorldOf(readings, no, c), enable), c.started, verdict, k)
        && outcome == OutcomeOf(verdict) && finish == polls(PollsMade(verdict, k));
      PollsGrow(replies, polls, readings, 0, PollsMade(verdict, k));
      if verdict.Reflected? {
        ReflectedReading(readings, no, enable, c, k);
        ReadingIsAPage(replies, polls, readings, k);
      }
    }
  }

  /** A toggle and the verification after it, from request `i` on: the toggle ends after `end` requests. */
  ghost predicate TogglesThen(replies: Replies, i: nat, token: string, o: Order, c: Clocks, toggle: Toggle, end: nat,
                              outcome: Outcome, forms: seq<Request>, finish: nat) {
    && ToggleEnds(replies, i, token, o, c.start, c.clock, forms, toggle, end)
    && VerifyEnds(toggle, PollsFrom(replies, end), ReadingsFrom(replies, end), o.port, o.enabled, c, outcome, finish)
  }

  lemma SwitchToggles(before: Option<Row>, replies: Replies, i: nat, token: string, no: nat, enable: bool, c: Clocks,
                      outcome: Outcome, forms: seq<Request>, finish: nat) returns (toggle: Toggle, end: nat)
    requires SwitchEnds(before, replies, i, token, no, enable, c, outcome, forms, finish)
    requires before.Some? && !(enable && before.value.state == "Enable" && before.value.mw == 0)
    ensures TogglesThen(replies, i, token, Order(no, enable, "", ""), c, toggle, end, outcome, forms, finish)
  {
    toggle, end :|
      && ToggleEnds(replies, i, token, Order(no, enable, "", ""), c.start, c.clock, forms, toggle, end)
      && VerifyEnds(toggle, PollsFrom(replies, end), ReadingsFrom(replies, end), no, enable, c, outcome, finish);
  }

  /** An enable of a port that is enabled and has nothing attached. */
  predicate NothingToDo(row: Row, enable: bool) {
    enable && row.state == "Enable" && row.mw == 0
  }

  /** The toggle of a set that gets that far. */
  lemma SetToggles(replies: Replies, i: nat, token: string, port: string, enable: bool, c: Clocks, row: Row,
                   outcome: Outcome, forms: seq<Request>, finish: nat) returns (toggle: Toggle, end: nat)
    requires SetEnds(replies, i, token, port, enable, true, c, outcome, forms, finish)
    requires PortNo(port).Some? && !IsProtected(port)
    requires RowIn(StatusRun(replies, i).answer, PortNo(port).value) == Some(row) && !NothingToDo(row, enable)
    ensures TogglesThen(replies, AfterStatus(replies, i), TokenAfter(replies, i, token), Order(PortNo(port).value, enable, "", ""), c,
                        toggle, end, outcome, forms, finish)
  {
    toggle, end := SwitchToggles(Some(row), replies, AfterStatus(replies, i), TokenAfter(replies, i, token), PortNo(port).value, enable, c, outcome, forms, finish);
  }

  /** What a toggle and its verification were served. */
  lemma TogglesServed(replies: Replies, i: nat, token: string, o: Order, c: Clocks, toggle: Toggle, end: nat,
                      outcome: Outcome, forms: seq<Request>, finish: nat)
    requires TogglesThen(replies, i, token, o, c, toggle, end, outcome, forms, finish)
    ensures i < end <= finish && (outcome.ToggleFailed? <==> !toggle.Verified?)
    ensures toggle.Verified? ==> 1 <= |forms| <= 2 && ShowsChange(replies(end - 1), o.port, o.enabled, toggle.row)
    ensures outcome.Done? ==> end < finish && Reflects(replies(finish - 1), o.port, o.enabled)
    ensures Intended(o)(StatusRun(replies, i).answer).Send? ==> toggle.Verified? || toggle.NotVerified? || toggle.WebError?
  {
    IntendedIsHonest(o);
    HonestWasServed(replies, i, token, o, Intended(o), c.start, c.clock, forms, toggle, end, Prepare(replies, i, token, Intended(o)));
    FollowsFrom(replies, end);
    VerifiedOnAPage(replies, PollsFrom(replies, end), ReadingsFrom(replies, end), toggle, o.port, o.enabled, c, outcome, finish);
  }

  /** Under the lock, a set that ends well goes through a toggle that verified. */
  ghost predicate DoneAfter(replies: Replies, i: nat, token: string, o: Order, c: Clocks, end: nat, forms: seq<Request>, finish: nat) {
    exists toggle: Toggle :: toggle.Verified? && TogglesThen(replies, i, token, o, c, toggle, end, Done, forms, finish)
  }

  /** A set that ends normally, and was no no-op, has posted its form, and after the end of its toggle, as
      the very last page, has been served one that shows the full match: for an enable both the admin state
      and power, which the toggle itself does not insist on. */
  lemma DoneMeansReflected(replies: Replies, i: nat, token: string, port: string, enable: bool, locked: bool, c: Clocks, forms: seq<Request>, finish: nat)
      returns (end: nat)
    requires SetEnds(replies, i, token, port, enable, locked, c, Done, forms, finish)
    ensures PortNo(port).Some? && !IsProtected(port) && locked && 1 <= |forms| <= 2
    ensures DoneAfter(replies, AfterStatus(replies, i), TokenAfter(replies, i, token), Order(PortNo(port).value, enable, "", ""), c, end, forms, finish)
    ensures i < end < finish && replies(finish - 1).Body? && PortNo(port).value in replies(finish - 1).page.rows
    ensures var row := replies(finish - 1).page.rows[PortNo(port).value];
            row.state == (if enable then "Enable" else "Disable") && (row.mw > 0 <==> enable)
  {
    var no := PortNo(port).value;
    StatusIsAPage(replies, i, StatusRun(replies, i).answer);
    end := DoneUnderLock(RowIn(StatusRun(replies, i).answer, no), replies, AfterStatus(replies, i), TokenAfter(replies, i, token), no, enable, c, forms, finish);
  }

  lemma DoneUnderLock(before: Option<Row>, replies: Replies, i: nat, token: string, no: nat, enable: bool, c: Clocks, forms: seq<Request>, finish: nat)
      returns (end: nat)
    requires SwitchEnds(before, replies, i, token, no, enable, c, Done, forms, finish)
    ensures DoneAfter(replies, i, token, Order(no, enable, "", ""), c, end, forms, finish)
    ensures i < end < finish && 1 <= |forms| <= 2 && Reflects(replies(finish - 1), no, enable)
  {
    var toggle;
    toggle, end := SwitchToggles(before, replies, i, token, no, enable, c, Done, forms, finish);
    TogglesServed(replies, i, token, Order(no, enable, "", ""), c, toggle, end, Done, forms, finish);
  }

  // ----- replies and clocks determine everything

  lemma VerifyUnique(toggle: Toggle, polls: nat -> nat, readings: Readings, no: nat, enable: bool, c: Clocks,
                     outcome: Outcome, finish: nat, outcome': Outcome, finish': nat)
    requires VerifyEnds(toggle, polls, readings, no, enable, c, outcome, finish) && VerifyEnds(toggle, polls, readings, no, enable, c, outcome', finish')
    ensures outcome == outcome' && finish == finish'
  {
    if toggle.Verified? {
      var t := Observe(WorldOf(readings, no, c), enable);
      var verdict: Verdict, k: nat :|
        Ends(t, c.started, verdict, k) && outcome == OutcomeOf(verdict) && finish == polls(PollsMade(verdict, k));
      var verdict': Verdict, k': nat :|
        Ends(t, c.started, verdict', k') && outcome' == OutcomeOf(verdict') && finish' == polls(PollsMade(verdict', k'));
      VerdictUnique(t, c.started, verdict, k, verdict', k');
    }
  }

  lemma SwitchUnique(before: Option<Row>, replies: Replies, i: nat, token: string, no: nat, enable: bool, c: Clocks,
                     outcome: Outcome, forms: seq<Request>, finish: nat, outcome': Outcome, forms': seq<Request>, finish': nat)
    requires SwitchEnds(before, replies, i, token, no, enable, c, outcome, forms, finish)
    requires SwitchEnds(before, replies, i, token, no, enable, c, outcome', forms', finish')
    ensures outcome == outcome' && forms == forms' && finish == finish'
  {
    if before.Some? && !(enable && before.value.state == "Enable" && before.value.mw == 0) {
      var toggle, end := SwitchToggles(before, replies, i, token, no, enable, c, outcome, forms, finish);
      var toggle', end' := SwitchToggles(before, replies, i, token, no, enable, c, outcome', forms', finish');
      ToggleUnique(replies, i, token, Order(no, enable, "", ""), c.start, c.clock, forms, toggle, end, forms', toggle', end');
      VerifyUnique(toggle, PollsFrom(replies, end), ReadingsFrom(replies, end), no, enable, c, outcome, finish, outcome', finish');
    }
  }

  /** Port, lock, replies and clocks determine the outcome, the forms and the number of requests. */
  lemma SetUnique(replies: Replies, i: nat, token: string, port: string, enable: bool, locked: bool, c: Clocks,
                  outcome: Outcome, forms: seq<Request>, finish: nat, outcome': Outcome, forms': seq<Request>, finish': nat)
    requires SetEnds(replies, i, token, port, enable, locked, c, outcome, forms, finish)
    requires SetEnds(replies, i, token, port, enable, locked, c, outcome', forms', finish')
    ensures outcome == outcome' && forms == forms' && finish == finish'
  {
    if PortNo(port).Some? && !IsProtected(port) && locked {
      var no := PortNo(port).value;
      SwitchUnique(RowIn(StatusRun(replies, i).answer, no), replies, AfterStatus(replies, i), TokenAfter(replies, i, token), no, enable, c,
                   outcome, forms, finish, outcome', forms', finish');
    }
  }

  /** What a set decides before it touches the switch, and with the first page. */
  lemma FirstDecisions(replies: Replies, i: nat, token: string, port: string, enable: bool, locked: bool, c: Clocks,
                       outcome: Outcome, forms: seq<Request>, finish: nat)
    requires SetEnds(replies, i, token, port, enable, locked, c, outcome, forms, finish)
    ensures outcome.InvalidPort? <==> forall n | 1 <= n <= 8 :: !Spells(port, n)
    ensures outcome.Refused? <==> Spells(port, 1)
    ensures outcome.LockBusy? <==> !locked && exists n :: 2 <= n <= 8 && Spells(port, n)
    ensures outcome.InvalidPort? || outcome.Refused? || outcome.LockBusy? ==> forms == [] && finish == i
    ensures forall n | 2 <= n <= 8 && Spells(port, n) && locked ::
              var first := RowIn(StatusRun(replies, i).answer, n);
              && (outcome.RowUnavailable? <==> first.None?)
              && (outcome.NoOp? <==> first.Some? && enable && first.value.state == "Enable" && first.value.mw == 0)
              && (outcome.RowUnavailable? || outcome.NoOp? ==> forms == [])
  {
    forall n | 1 <= n <= 8
      ensures PortNo(port) == Some(n) <==> Spells(port, n)
    {
      SpellingExactly(port, n);
    }
    if PortNo(port).Some? && !IsProtected(port) && locked {
      var no := PortNo(port).value;
      OneOfEight(port);
      assert Spells(port, no) && no != 1;
      UnderLockDecisions(RowIn(StatusRun(replies, i).answer, no), replies, AfterStatus(replies, i), TokenAfter(replies, i, token), no, enable, c,
                         outcome, forms, finish);
    } else if PortNo(port).Some? {
      OneOfEight(port);
      assert Spells(port, PortNo(port).value);
    }
  }

  lemma OneOfEight(port: string)
    ensures PortNo(port).Some? ==> 1 <= PortNo(port).value <= 8
  {
  }

  lemma UnderLockDecisions(before: Option<Row>, replies: Replies, i: nat, token: string, no: nat, enable: bool, c: Clocks,
                           outcome: Outcome, forms: seq<Request>, finish: nat)
    requires SwitchEnds(before, replies, i, token, no, enable, c, outcome, forms, finish)
    ensures !outcome.InvalidPort? && !outcome.Refused? && !outcome.LockBusy?
    ensures outcome.RowUnavailable? <==> before.None?
    ensures outcome.NoOp? <==> before.Some? && enable && before.value.state == "Enable" && before.value.mw == 0
    ensures outcome.RowUnavailable? || outcome.NoOp? ==> forms == []
  {
    if before.Some? && !(enable && before.value.state == "Enable" && before.value.mw == 0) {
      var toggle, end := SwitchToggles(before, replies, i, token, no, enable, c, outcome, forms, finish);
      assert VerifyEnds(toggle, PollsFrom(replies, end), ReadingsFrom(replies, end), no, enable, c, outcome, finish);
    }
  }

  // ----- a port without a device

  lemma PowerlessSwitch(before: Option<Row>, replies: Replies, i: nat, token: string, no: nat, c: Clocks, outcome: Outcome, forms: seq<Request>, finish: nat)
    requires forall m: nat | i <= m < finish :: Powerless(replies(m), no)
    requires before.Some? ==> before.value.mw == 0
    requires SwitchEnds(before, replies, i, token, no, true, c, outcome, forms, finish)
    ensures i <= finish
    ensures outcome.RowUnavailable? <==> before.None?
    ensures outcome.NoOp? <==> before.Some? && before.value.state == "Enable"
    ensures !outcome.RowUnavailable? && !outcome.NoOp? ==> outcome.ToggleFailed? && !outcome.toggle.Verified?
    ensures outcome.ToggleFailed? && Intended(Order(no, true, "", ""))(StatusRun(replies, i).answer).Send? ==>
              outcome.toggle.NotVerified? || outcome.toggle.WebError?
  {
    if before.Some? && before.value.state != "Enable" {
      var toggle, end := SwitchToggles(before, replies, i, token, no, true, c, outcome, forms, finish);
      TogglesServed(replies, i, token, Order(no, true, "", ""), c, toggle, end, outcome, forms, finish);
      assert Powerless(replies(end - 1), no);
    }
  }

  /** Enabling a port that draws no power on any page served during the call never reaches the
      verification: it is a no-op on an enabled port, and on a disabled one it fails in the toggle,
      unverified or with an error of the session. */
  lemma EmptyPortFailsInTheToggle(replies: Replies, i: nat, token: string, port: string, c: Clocks, outcome: Outcome, forms: seq<Request>, finish: nat)
    requires PortNo(port).Some? && !IsProtected(port)
    requires SetEnds(replies, i, token, port, true, true, c, outcome, forms, finish)
    requires forall m: nat | i <= m < finish :: Powerless(replies(m), PortNo(port).value)
    ensures var first := RowIn(StatusRun(replies, i).answer, PortNo(port).value);
            && (outcome.RowUnavailable? <==> first.None?)
            && (outcome.NoOp? <==> first.Some? && first.value.state == "Enable")
    ensures outcome.RowUnavailable? || outcome.NoOp? || (outcome.ToggleFailed? && !outcome.toggle.Verified?)
    ensures outcome.ToggleFailed? &&
            Intended(Order(PortNo(port).value, true, "", ""))(StatusRun(replies, AfterStatus(replies, i)).answer).Send? ==>
              outcome.toggle.NotVerified? || outcome.toggle.WebError?
  {
    var no := PortNo(port).value;
    var first := RowIn(StatusRun(replies, i).answer, no);
    StatusIsAPage(replies, i, StatusRun(replies, i).answer);
    SwitchGrows(first, replies, AfterStatus(replies, i), TokenAfter(replies, i, token), no, true, c, outcome, forms, finish);
    assert Powerless(replies(AfterStatus(replies, i) - 1), no);
    PowerlessSwitch(first, replies, AfterStatus(replies, i), TokenAfter(replies, i, token), no, c, outcome, forms, finish);
  }

  lemma SwitchGrows(before: Option<Row>, replies: Replies, i: nat, token: string, no: nat, enable: bool, c: Clocks,
                    outcome: Outcome, forms: seq<Request>, finish: nat)
    requires SwitchEnds(before, replies, i, token, no, enable, c, outcome, forms, finish)
    ensures i <= finish
  {
    if before.Some? && !(enable && before.value.state == "Enable" && before.value.mw == 0) {
      var toggle, end := SwitchToggles(before, replies, i, token, no, enable, c, outcome, forms, finish);
      TogglesServed(replies, i, token, Order(no, enable, "", ""), c, toggle, end, outcome, forms, finish);
    }
  }

  const EMPTY_ROW := Row("Disable", "", "Low", "802.3at", 0)

  /** A quiet session, and a port without a device: every page shows it disabled, in settings with codes. */
  function EmptyPort(no: nat): Replies {
    (n: nat) => Body(Page(false, None, false, None, map[no := EMPTY_ROW]))
  }

  lemma EmptyReading(no: nat, at: nat, i: nat, n: nat)
    ensures StatusRun(EmptyPort(no), at) == Run([GetPage(STATUS_CMD)], Ok(Page(false, None, false, None, map[no := EMPTY_ROW])))
    ensures ReadingsFrom(EmptyPort(no), i)(n).Ok?
  {
  }

  lemma EmptyPolls(no: nat, prepared: Prepared, o: Order, c: Clocks, forms: seq<Request>, toggle: Toggle, end: nat)
    requires prepared.Poll? && o.port == no && o.enabled
    requires PreparedEnds(prepared, EmptyPort(no), o, c.start, c.clock, forms, toggle, end)
    ensures toggle == NotVerified
  {
    var readings := ReadingsFrom(EmptyPort(no), prepared.from);
    var n: nat :| AwaitEnds(readings, o.port, o.enabled, c.start, c.clock, toggle, n);
    EmptyReading(no, 0, prepared.from, n);
  }

  lemma EmptyPrepare(no: nat, i: nat, token: string, intentOn: Answer<Page> -> Intent)
    requires intentOn(Ok(Page(false, None, false, None, map[no := EMPTY_ROW]))).Send?
    ensures Prepare(EmptyPort(no), i, token, intentOn).Poll?
  {
    EmptyReading(no, i, 0, 0);
  }

  /** On it an enable always ends with the toggle unverified. */
  lemma EmptyPortTimesOut(i: nat, token: string, port: string, c: Clocks, outcome: Outcome, forms: seq<Request>, finish: nat)
    requires PortNo(port).Some? && !IsProtected(port)
    requires SetEnds(EmptyPort(PortNo(port).value), i, token, port, true, true, c, outcome, forms, finish)
    ensures outcome == ToggleFailed(NotVerified)
  {
    var no := PortNo(port).value;
    EmptyReading(no, i, 0, 0);
    EmptySwitch(RowIn(StatusRun(EmptyPort(no), i).answer, no), no, AfterStatus(EmptyPort(no), i), TokenAfter(EmptyPort(no), i, token), c, outcome, forms, finish);
  }

  lemma EmptySwitch(before: Option<Row>, no: nat, i: nat, token: string, c: Clocks, outcome: Outcome, forms: seq<Request>, finish: nat)
    requires before == Some(EMPTY_ROW)
    requires SwitchEnds(before, EmptyPort(no), i, token, no, true, c, outcome, forms, finish)
    ensures outcome == ToggleFailed(NotVerified)
  {
    var o := Order(no, true, "", "");
    assert "Disable"[0] == 'D';
    var toggle: Toggle, end: nat :|
      && ToggleEnds(EmptyPort(no), i, token, o, c.start, c.clock, forms, toggle, end)
      && VerifyEnds(toggle, PollsFrom(EmptyPort(no), end), ReadingsFrom(EmptyPort(no), end), no, true, c, outcome, finish);
    assert Coded(EMPTY_ROW, o);
    EmptyPrepare(no, i, token, Intended(o));
    EmptyPolls(no, Prepare(EmptyPort(no), i, token, Intended(o)), o, c, forms, toggle, end);
  }
}
