/** A stock switch that does what it is asked, in a session that nobody disturbs. */
module StockHealthy {
  import opened Options
  import opened VerifyWindow
  import opened StockWeb
  import opened PoeToggle
  import opened PoeEvidence
  import opened StockZyxelPoe
  import opened StockEvidence

  /** An ordinary page that shows the port. */
  predicate Calm(reply: Reply, no: nat) {
    reply.Body? && !reply.page.loginShaped && no in reply.page.rows
  }

  ghost predicate CalmFrom(replies: Replies, i: nat, no: nat) {
    forall m: nat | i <= m :: Calm(replies(m), no)
  }

  /** From this request on every page shows the port as requested. */
  ghost predicate ReflectsFrom(replies: Replies, i: nat, no: nat, enable: bool) {
    forall m: nat | i <= m ::
      && replies(m).Body? && no in replies(m).page.rows
      && replies(m).page.rows[no].state == (if enable then "Enable" else "Disable")
      && (replies(m).page.rows[no].mw > 0 <==> enable)
  }

  lemma CalmStatus(replies: Replies, at: nat, token: string, no: nat)
    requires Calm(replies(at), no)
    ensures StatusRun(replies, at).answer == Ok(replies(at).page)
    ensures AfterStatus(replies, at) == at + 1 && TokenAfter(replies, at, token) == token
  {
  }

  lemma {:induction false} CalmPolls(replies: Replies, polls: nat -> nat, readings: Readings, no: nat, n: nat)
    requires Follows(replies, polls, readings) && CalmFrom(replies, polls(0), no)
    ensures polls(n) == polls(0) + n && readings(n) == Ok(replies(polls(0) + n).page)
  {
    if n > 0 {
      CalmPolls(replies, polls, readings, no, n - 1);
      assert FollowsAt(replies, polls, readings, n - 1);
      CalmStatus(replies, polls(n - 1), "", no);
    }
    assert FollowsAt(replies, polls, readings, n);
    CalmStatus(replies, polls(n), "", no);
  }

  /** Without a disturbance one form is posted, and the polls begin behind it. */
  lemma CalmProceed(replies: Replies, i: nat, token: string, fields: Fields, no: nat)
    requires Calm(replies(i), no)
    ensures Proceed(replies, i, token, Send(fields)) == Prepared.Poll(i + 1, [PostForm(TOGGLE_CMD, token, fields)])
  {
    var form := PostForm(TOGGLE_CMD, token, fields);
    assert FetchRun(replies, i, form) == Run([form], Ok(replies(i).page));
    assert Forms([form]) == [form];
  }

  lemma {:induction false} TestsGrow(start: real, clock: nat -> real, a: nat, b: nat)
    requires Sleeps(start, clock) && a <= b
    ensures clock(a) <= clock(b)
    decreases b
  {
    if a < b {
      TestsGrow(start, clock, a, b - 1);
      assert SleepsAt(clock, b - 1);
    }
  }

  /** The toggle returns normally, at the latest with the first page that reflects the request. */
  lemma CalmToggle(replies: Replies, polls: nat -> nat, readings: Readings, o: Order, start: real, clock: nat -> real, j: nat, result: Toggle, end: nat)
    requires Follows(replies, polls, readings) && CalmFrom(replies, polls(0), o.port)
    requires Sleeps(start, clock) && InTime(start, clock, j) && ReflectsFrom(replies, polls(0) + j, o.port, o.enabled)
    requires PollEnds(polls, readings, o, start, clock, result, end)
    ensures result.Verified? && polls(0) < end <= polls(0) + j + 1
  {
    var n: nat :| AwaitEnds(readings, o.port, o.enabled, start, clock, result, n) && end == polls(ReadingsMade(result, n));
    CalmPolls(replies, polls, readings, o.port, n);
    CalmPolls(replies, polls, readings, o.port, j);
    CalmPolls(replies, polls, readings, o.port, ReadingsMade(result, n));
    assert Reflects(replies(polls(0) + j), o.port, o.enabled) && Calm(replies(polls(0) + n), o.port);
    assert !Fruitless(readings, o.port, o.enabled, start, clock, j);
    if n <= j {
      TestsGrow(start, clock, n, j);
    }
  }

  /** A trace that matches from poll `j` on, taken within the tolerated lag, ends well. */
  lemma MatchingEndsWell(t: Trace, started: real, interval: real, j: nat, verdict: Verdict, k: nat)
    requires Paced(t, started, interval) && interval > 0.0 && Ends(t, started, verdict, k)
    requires forall n: nat :: !t(n).view.Unreadable? && (n >= j ==> t(n).view.Accepts?)
    requires t(j).check <= started + SETTLING + interval < started + VerifyWindow.VERIFY_TIMEOUT
    ensures verdict == Reflected
  {
    forall n: nat | t(n).check >= started + (t(j).check - started)
      ensures t(n).view.Accepts?
    {
      assert PacedAt(t, interval, n);
      if n < j {
        VerifyWindow.ClockGrows(t, started, interval, n, j);
      }
    }
    LateReflectionPasses(t, started, interval, 0.0, t(j).check - started, j, verdict, k);
  }

  lemma CalmView(replies: Replies, polls: nat -> nat, readings: Readings, no: nat, enable: bool, c: Clocks, j: nat, n: nat)
    requires Follows(replies, polls, readings) && CalmFrom(replies, polls(0), no) && ReflectsFrom(replies, polls(0) + j, no, enable)
    ensures var poll := Observe(WorldOf(readings, no, c), enable)(n);
            poll.check == c.check(n) && !poll.view.Unreadable? && (n >= j ==> poll.view.Accepts?)
  {
    ObservedAt(readings, no, c, enable, n);
    CalmPolls(replies, polls, readings, no, n);
    assert Calm(replies(polls(0) + n), no);
    assert n >= j ==> Reflects(replies(polls(0) + n), no, enable);
  }

  /** The verification ends well, when the pages reflect the request from its reading `j` on, which is
      taken within the tolerated lag. */
  lemma CalmVerify(replies: Replies, polls: nat -> nat, readings: Readings, toggle: Toggle, no: nat, enable: bool, c: Clocks, j: nat,
                   outcome: Outcome, finish: nat)
    requires Follows(replies, polls, readings) && CalmFrom(replies, polls(0), no)
    requires Ticks(c) && c.check(j) <= c.started + SETTLING + StockZyxelPoe.POLL_INTERVAL && ReflectsFrom(replies, polls(0) + j, no, enable)
    requires toggle.Verified? && VerifyEnds(toggle, polls, readings, no, enable, c, outcome, finish)
    ensures outcome == Done
  {
    var verdict: Verdict, k: nat :|
      && Ends(Observe(WorldOf(readings, no, c), enable), c.started, verdict, k)
      && outcome == OutcomeOf(verdict) && finish == polls(PollsMade(verdict, k));
    CalmVerdict(replies, polls, readings, no, enable, c, j, verdict, k);
  }

  lemma CalmVerdict(replies: Replies, polls: nat -> nat, readings: Readings, no: nat, enable: bool, c: Clocks, j: nat, verdict: Verdict, k: nat)
    requires Follows(replies, polls, readings) && CalmFrom(replies, polls(0), no)
    requires Ticks(c) && c.check(j) <= c.started + SETTLING + StockZyxelPoe.POLL_INTERVAL && ReflectsFrom(replies, polls(0) + j, no, enable)
    requires Ends(Observe(WorldOf(readings, no, c), enable), c.started, verdict, k)
    ensures verdict == Reflected
  {
    var t := Observe(WorldOf(readings, no, c), enable);
    TicksAreRealistic(readings, no, c, enable);
    CalmView(replies, polls, readings, no, enable, c, j, j);
    forall n: nat
      ensures !t(n).view.Unreadable? && (n >= j ==> t(n).view.Accepts?)
    {
      CalmView(replies, polls, readings, no, enable, c, j, n);
    }
    MatchingEndsWell(t, c.started, StockZyxelPoe.POLL_INTERVAL, j, verdict, k);
  }

  lemma CalmAfterForm(replies: Replies, from: nat, fields: Fields, token: string, o: Order, c: Clocks, j: nat,
                      toggle: Toggle, end: nat, outcome: Outcome, forms: seq<Request>, finish: nat)
    requires CalmFrom(replies, from, o.port) && Ticks(c)
    requires InTime(c.start, c.clock, j) && c.check(j) <= c.started + SETTLING + StockZyxelPoe.POLL_INTERVAL
    requires ReflectsFrom(replies, from + j, o.port, o.enabled)
    requires PreparedEnds(Prepared.Poll(from, [PostForm(TOGGLE_CMD, token, fields)]), replies, o, c.start, c.clock, forms, toggle, end)
    requires VerifyEnds(toggle, PollsFrom(replies, end), ReadingsFrom(replies, end), o.port, o.enabled, c, outcome, finish)
    ensures outcome == Done && forms == [PostForm(TOGGLE_CMD, token, fields)]
  {
    FollowsFrom(replies, from);
    CalmToggle(replies, PollsFrom(replies, from), ReadingsFrom(replies, from), o, c.start, c.clock, j, toggle, end);
    FollowsFrom(replies, end);
    CalmVerify(replies, PollsFrom(replies, end), ReadingsFrom(replies, end), toggle, o.port, o.enabled, c, j, outcome, finish);
  }

  lemma CalmPrepare(replies: Replies, i: nat, token: string, intentOn: Answer<Page> -> Intent, fields: Fields, no: nat)
    requires Calm(replies(i), no) && Calm(replies(i + 1), no) && intentOn(Ok(replies(i).page)) == Send(fields)
    ensures Prepare(replies, i, token, intentOn) == Prepared.Poll(i + 2, [PostForm(TOGGLE_CMD, token, fields)])
  {
    CalmStatus(replies, i, token, no);
    CalmProceed(replies, i + 1, token, fields, no);
  }

  /** The toggle and the verification, whatever the form is. */
  lemma CalmCourse(replies: Replies, i: nat, token: string, o: Order, prepared: Prepared, fields: Fields, c: Clocks, j: nat,
                   toggle: Toggle, end: nat, outcome: Outcome, forms: seq<Request>, finish: nat)
    requires CalmFrom(replies, i, o.port) && Ticks(c)
    requires InTime(c.start, c.clock, j) && c.check(j) <= c.started + SETTLING + StockZyxelPoe.POLL_INTERVAL
    requires ReflectsFrom(replies, i + 2 + j, o.port, o.enabled)
    requires prepared == Prepared.Poll(i + 2, [PostForm(TOGGLE_CMD, token, fields)])
    requires PreparedEnds(prepared, replies, o, c.start, c.clock, forms, toggle, end)
    requires VerifyEnds(toggle, PollsFrom(replies, end), ReadingsFrom(replies, end), o.port, o.enabled, c, outcome, finish)
    ensures outcome == Done && forms == [PostForm(TOGGLE_CMD, token, fields)]
  {
    CalmAfterForm(replies, i + 2, fields, token, o, c, j, toggle, end, outcome, forms, finish);
  }

  lemma CalmToggles(replies: Replies, i: nat, token: string, o: Order, fields: Fields, c: Clocks, j: nat,
                    toggle: Toggle, end: nat, outcome: Outcome, forms: seq<Request>, finish: nat)
    requires CalmFrom(replies, i, o.port) && Ticks(c)
    requires InTime(c.start, c.clock, j) && c.check(j) <= c.started + SETTLING + StockZyxelPoe.POLL_INTERVAL
    requires ReflectsFrom(replies, i + 2 + j, o.port, o.enabled)
    requires Calm(replies(i), o.port) && Intended(o)(Ok(replies(i).page)) == Send(fields)
    requires TogglesThen(replies, i, token, o, c, toggle, end, outcome, forms, finish)
    ensures outcome == Done && forms == [PostForm(TOGGLE_CMD, token, fields)]
  {
    assert Calm(replies(i + 1), o.port);
    CalmPrepare(replies, i, token, Intended(o), fields, o.port);
    CalmCourse(replies, i, token, o, Prepare(replies, i, token, Intended(o)), fields, c, j, toggle, end, outcome, forms, finish);
  }

  /** The text names an unprotected port. */
  predicate MayToggle(port: string, no: nat) {
    PortNo(port) == Some(no) && !IsProtected(port)
  }

  ghost predicate Toggled(replies: Replies, i: nat, token: string, o: Order, c: Clocks, outcome: Outcome, forms: seq<Request>, finish: nat) {
    exists toggle: Toggle, end: nat :: TogglesThen(replies, i, token, o, c, toggle, end, outcome, forms, finish)
  }

  /** The toggle of a set begins behind the first page, with the token unchanged. */
  lemma CalmSet(replies: Replies, i: nat, token: string, port: string, enable: bool, c: Clocks, no: nat,
                outcome: Outcome, forms: seq<Request>, finish: nat)
    requires MayToggle(port, no)
    requires Calm(replies(i), no) && !NothingToDo(replies(i).page.rows[no], enable)
    requires SetEnds(replies, i, token, port, enable, true, c, outcome, forms, finish)
    ensures Toggled(replies, i + 1, token, Order(no, enable, "", ""), c, outcome, forms, finish)
  {
    CalmStatus(replies, i, token, no);
    var toggle, end := SetToggles(replies, i, token, port, enable, c, replies(i).page.rows[no], outcome, forms, finish);
  }

  /** From request `i` on, where a toggle begins: a quiet session, a port whose settings have codes, so that
      the full form of its row is `fields`, and pages that reflect the request from reading `j` of the toggle
      on, which is in time; reading `j` of the verification is within the lag that verification tolerates. */
  ghost predicate HealthyFrom(replies: Replies, i: nat, o: Order, fields: Fields, c: Clocks, j: nat) {
    && CalmFrom(replies, i, o.port) && Calm(replies(i), o.port)
    && FormFor(replies(i).page.rows[o.port], o.port, o.enabled, o.priority, o.powerup) == Some(fields)
    && ReflectsFrom(replies, i + 2 + j, o.port, o.enabled)
    && Ticks(c) && InTime(c.start, c.clock, j) && c.check(j) <= c.started + SETTLING + StockZyxelPoe.POLL_INTERVAL
  }

  ghost predicate Healthy(replies: Replies, i: nat, o: Order, fields: Fields, c: Clocks) {
    exists j: nat :: HealthyFrom(replies, i, o, fields, c, j)
  }

  lemma HealthyToggles(replies: Replies, i: nat, token: string, o: Order, fields: Fields, c: Clocks,
                       outcome: Outcome, forms: seq<Request>, finish: nat)
    requires Healthy(replies, i, o, fields, c) && Toggled(replies, i, token, o, c, outcome, forms, finish)
    ensures outcome == Done && forms == [PostForm(TOGGLE_CMD, token, fields)]
  {
    var j: nat :| HealthyFrom(replies, i, o, fields, c, j);
    var toggle: Toggle, end: nat :| TogglesThen(replies, i, token, o, c, toggle, end, outcome, forms, finish);
    CalmToggles(replies, i, token, o, fields, c, j, toggle, end, outcome, forms, finish);
  }

  /** A switch that reflects a request in time, and goes on doing so, is served by one form: a set that is
      no no-op ends well, with exactly one form, the full form of the row on the page that the toggle reads. */
  lemma HealthySwitchNeedsOneForm(replies: Replies, i: nat, token: string, port: string, no: nat, enable: bool, c: Clocks,
                                  fields: Fields, outcome: Outcome, forms: seq<Request>, finish: nat)
    requires MayToggle(port, no)
    requires Calm(replies(i), no) && !NothingToDo(replies(i).page.rows[no], enable)
    requires Healthy(replies, i + 1, Order(no, enable, "", ""), fields, c)
    requires SetEnds(replies, i, token, port, enable, true, c, outcome, forms, finish)
    ensures outcome == Done && forms == [PostForm(TOGGLE_CMD, token, fields)]
  {
    CalmSet(replies, i, token, port, enable, c, no, outcome, forms, finish);
    HealthyToggles(replies, i + 1, token, Order(no, enable, "", ""), fields, c, outcome, forms, finish);
  }
}
