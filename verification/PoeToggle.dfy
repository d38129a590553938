/** The PoE toggle of the stock switch: read the row of the port, post the full form with the other
    settings of that row, and poll until the row shows the change. */
module PoeToggle {
  import opened Options
  import opened Decimal
  import opened StockWeb

  const STATUS_CMD := 773
  const TOGGLE_CMD := 775
  const VERIFY_TIMEOUT := 30.0
  const POLL_INTERVAL := 1.5

  /** The wire codes of the displayed values. */
  function PriorityCode(name: string): Option<string> {
    if name == "Critical" then Some("0") else if name == "High" then Some("1")
    else if name == "Medium" then Some("2") else if name == "Low" then Some("3") else None
  }

  function PowerModeCode(name: string): Option<string> {
    if name == "802.3af" then Some("0") else if name == "Legacy" then Some("1")
    else if name == "Pre-802.3at" then Some("2") else if name == "802.3at" then Some("3") else None
  }

  /** An empty override stands for none. */
  function Or(override: string, current: string): string {
    if override != "" then override else current
  }

  /** The full form for a port, or nothing when a displayed value has no code. */
  function FormFor(row: Row, port: nat, enabled: bool, priority: string, powerup: string): Option<Fields> {
    var pri := PriorityCode(Or(priority, row.priority));
    var mode := PowerModeCode(Or(powerup, row.powerup));
    if pri.None? || mode.None? then None
    else Some([("portlist", Digits(port)), ("state", if enabled then "1" else "0"),
               ("portPriority", pri.value), ("portPowerMode", mode.value),
               ("portLimitMode", "0"), ("portRangeDetection", ""), ("poeTimeRange", "")])
  }

  /** What a polled row must show: power for an enable, the admin state for a disable. */
  predicate Evidence(enabled: bool, row: Row) {
    if enabled then row.mw > 0 else row.state == "Disable"
  }

  datatype Toggle = Verified(row: Row) | MissingPort | UnknownDisplay | NotVerified | WebError(error: Error)

  /** The forms among the requests. */
  function Forms(log: seq<Request>): seq<Request> {
    if log == [] then []
    else Forms(log[..|log| - 1]) + if log[|log| - 1].PostForm? then [log[|log| - 1]] else []
  }

  lemma {:induction false} FormsAppend(a: seq<Request>, b: seq<Request>)
    ensures Forms(a + b) == Forms(a) + Forms(b)
  {
    if b == [] {
      assert a + b == a;
    } else {
      assert (a + b)[..|a + b| - 1] == a + b[..|b| - 1];
      FormsAppend(a, b[..|b| - 1]);
    }
  }

  lemma {:induction false} NoFormsAmong(log: seq<Request>)
    requires NoForms(log)
    ensures Forms(log) == []
  {
    if log != [] {
      NoFormsAmong(log[..|log| - 1]);
    }
  }

  lemma GetSendsNoForm(replies: Replies, i: nat, cmd: int)
    ensures Forms(FetchRun(replies, i, GetPage(cmd)).sent) == []
  {
    LoginHasNoForms(replies, i + 1);
    NoFormsAmong(FetchRun(replies, i, GetPage(cmd)).sent);
  }

  /** All forms are the given one, posted once or twice. */
  ghost predicate Posted(forms: seq<Request>, fields: Fields) {
    1 <= |forms| <= 2 && forall f | f in forms :: f.PostForm? && f.cmd == TOGGLE_CMD && f.fields == fields
  }

  lemma PostSendsItsForm(replies: Replies, i: nat, token: string, fields: Fields)
    ensures Posted(Forms(FetchRun(replies, i, PostForm(TOGGLE_CMD, token, fields)).sent), fields)
  {
    var login := LoginRun(replies, i + 1, LOGIN_ATTEMPTS);
    LoginHasNoForms(replies, i + 1);
    FormsAround(token, login.sent, if login.answer.Ok? then login.answer.value else "", fields);
  }

  /** A form alone, followed by a login, or repeated after it. */
  lemma FormsAround(token: string, login: seq<Request>, newToken: string, fields: Fields)
    requires NoForms(login)
    ensures var (first, again) := (PostForm(TOGGLE_CMD, token, fields), PostForm(TOGGLE_CMD, newToken, fields));
            && Posted(Forms([first]), fields)
            && Posted(Forms([first] + login), fields)
            && Posted(Forms([first] + (login + [again])), fields)
  {
    var (first, again) := (PostForm(TOGGLE_CMD, token, fields), PostForm(TOGGLE_CMD, newToken, fields));
    NoFormsAmong(login);
    FormsAppend([first], login);
    FormsAppend(login, [again]);
    FormsAppend([first], login + [again]);
    assert Forms([first]) == [first] && Forms([again]) == [again];
  }

  // ----- what a toggle does against given replies

  /** One reading of the status table, as the request number `i`. */
  function StatusRun(replies: Replies, i: nat): Run<Page> {
    FetchRun(replies, i, GetPage(STATUS_CMD))
  }

  /** The number of requests sent after it. */
  function AfterStatus(replies: Replies, i: nat): nat {
    i + |StatusRun(replies, i).sent|
  }

  /** The number of requests sent before the n-th of some readings that start at request `i`. */
  function PollAt(replies: Replies, i: nat, n: nat): nat {
    if n == 0 then i else AfterStatus(replies, PollAt(replies, i, n - 1))
  }

  function PollsFrom(replies: Replies, i: nat): nat -> nat {
    (n: nat) => PollAt(replies, i, n)
  }

  type Readings = nat -> Answer<Page>

  /** What the n-th of these readings returns or raises. */
  function ReadingsFrom(replies: Replies, i: nat): Readings {
    (n: nat) => StatusRun(replies, PollAt(replies, i, n)).answer
  }

  /** The row that a reading shows for a port. */
  function RowIn(status: Answer<Page>, port: nat): Option<Row> {
    if status.Ok? && port in status.value.rows then Some(status.value.rows[port]) else None
  }

  /** What to do to which port; an empty override leaves a setting as displayed. */
  datatype Order = Order(port: nat, enabled: bool, priority: string, powerup: string)

  predicate Coded(row: Row, o: Order) {
    PriorityCode(Or(o.priority, row.priority)).Some? && PowerModeCode(Or(o.powerup, row.powerup)).Some?
  }

  /** What to do after the first status page: give up, or post a form. */
  datatype Intent = Nothing(result: Toggle) | Send(fields: Fields)

  function IntentOn(status: Answer<Page>, o: Order): Intent {
    match status
    case Raised(e) => Nothing(WebError(e))
    case Ok(page) =>
      if o.port !in page.rows then Nothing(MissingPort)
      else match FormFor(page.rows[o.port], o.port, o.enabled, o.priority, o.powerup)
        case None => Nothing(UnknownDisplay)
        case Some(fields) => Send(fields)
  }

  function Intended(o: Order): Answer<Page> -> Intent {
    (status: Answer<Page>) => IntentOn(status, o)
  }

  /** The part of a toggle before its polling loop: it ends there after some requests, or goes on to poll. */
  datatype Prepared = Stop(result: Toggle, forms: seq<Request>, at: nat) | Poll(from: nat, forms: seq<Request>)

  function Prepare(replies: Replies, i: nat, token: string, intentOn: Answer<Page> -> Intent): Prepared {
    Proceed(replies, AfterStatus(replies, i), TokenAfter(replies, i, token), intentOn(StatusRun(replies, i).answer))
  }

  function Proceed(replies: Replies, i: nat, token: string, intent: Intent): Prepared {
    match intent
    case Nothing(result) => Stop(result, [], i)
    case Send(fields) => Submit(replies, i, PostForm(TOGGLE_CMD, token, fields))
  }

  function Submit(replies: Replies, i: nat, form: Request): Prepared {
    var post := FetchRun(replies, i, form);
    match post.answer
    case Raised(e) => Stop(WebError(e), Forms(post.sent), i + |post.sent|)
    case Ok(_) => Poll(i + |post.sent|, Forms(post.sent))
  }

  /** `clock(n)` is the time at the n-th test of a polling loop that sleeps between the tests. */
  ghost predicate Sleeps(start: real, clock: nat -> real) {
    start <= clock(0) && forall n: nat :: SleepsAt(clock, n)
  }

  predicate SleepsAt(clock: nat -> real, n: nat) {
    clock(n) + POLL_INTERVAL <= clock(n + 1)
  }

  predicate InTime(start: real, clock: nat -> real, n: nat) {
    clock(n) < start + VERIFY_TIMEOUT
  }

  lemma {:induction false} ClockGrows(start: real, clock: nat -> real, n: nat)
    requires Sleeps(start, clock)
    ensures start + POLL_INTERVAL * n as real <= clock(n)
  {
    if n > 0 {
      ClockGrows(start, clock, n - 1);
      assert SleepsAt(clock, n - 1);
    }
  }

  /** No polling loop makes more than twenty readings. */
  lemma RoundsFit(start: real, clock: nat -> real, n: nat)
    requires Sleeps(start, clock) && InTime(start, clock, n)
    ensures n < 20
  {
    ClockGrows(start, clock, n);
  }

  /** The n-th reading is taken, and shows no evidence. */
  predicate Fruitless(readings: Readings, port: nat, enabled: bool, start: real, clock: nat -> real, n: nat) {
    && InTime(start, clock, n)
    && readings(n).Ok?
    && (RowIn(readings(n), port).Some? ==> !Evidence(enabled, RowIn(readings(n), port).value))
  }

  /** How the polling loop ends on these readings, at its n-th test: with the first evidence,
      with the first error, or when the time is up. */
  ghost predicate AwaitEnds(readings: Readings, port: nat, enabled: bool, start: real, clock: nat -> real, result: Toggle, n: nat) {
    && (forall m: nat | m < n :: Fruitless(readings, port, enabled, start, clock, m))
    && match result
       case Verified(row) => InTime(start, clock, n) && RowIn(readings(n), port) == Some(row) && Evidence(enabled, row)
       case WebError(e) => InTime(start, clock, n) && readings(n) == Raised(e)
       case NotVerified => !InTime(start, clock, n)
       case _ => false
  }

  function ReadingsMade(result: Toggle, n: nat): nat {
    if result.NotVerified? then n else n + 1
  }

  /** How the whole toggle ends, the forms it posts, and how many requests have been sent by then. */
  ghost predicate ToggleEnds(replies: Replies, i: nat, token: string, o: Order, start: real, clock: nat -> real,
                             forms: seq<Request>, result: Toggle, end: nat) {
    PreparedEnds(Prepare(replies, i, token, Intended(o)), replies, o, start, clock, forms, result, end)
  }

  ghost predicate PreparedEnds(prepared: Prepared, replies: Replies, o: Order, start: real, clock: nat -> real,
                               forms: seq<Request>, result: Toggle, end: nat) {
    match prepared
    case Stop(r, f, at) => result == r && forms == f && end == at
    case Poll(from, f) => forms == f && PollEnds(PollsFrom(replies, from), ReadingsFrom(replies, from), o, start, clock, result, end)
  }

  ghost predicate PollEnds(polls: nat -> nat, readings: Readings, o: Order, start: real, clock: nat -> real, result: Toggle, end: nat) {
    exists n: nat :: AwaitEnds(readings, o.port, o.enabled, start, clock, result, n) && end == polls(ReadingsMade(result, n))
  }

  /** What is posted, told by the intent: nothing, or only the intended form, once or twice. */
  ghost predicate TogglePosts(intent: Intent, forms: seq<Request>, result: Toggle) {
    match intent
    case Nothing(r) => forms == [] && result == r
    case Send(fields) => Posted(forms, fields) && (result.Verified? || result.NotVerified? || result.WebError?)
  }

  lemma SubmitPosts(replies: Replies, i: nat, token: string, fields: Fields, p: Prepared)
    requires p == Submit(replies, i, PostForm(TOGGLE_CMD, token, fields))
    ensures Posted(p.forms, fields) && (p.Stop? ==> p.result.WebError?)
  {
    PostSendsItsForm(replies, i, token, fields);
  }

  lemma ProceedPosts(replies: Replies, i: nat, token: string, intent: Intent, p: Prepared)
    requires p == Proceed(replies, i, token, intent)
    ensures match intent
            case Nothing(r) => p.Stop? && p.result == r && p.forms == []
            case Send(fields) => Posted(p.forms, fields) && (p.Stop? ==> p.result.WebError?)
  {
    if intent.Send? {
      SubmitPosts(replies, i, token, intent.fields, p);
    }
  }

  lemma PreparedPosts(replies: Replies, i: nat, token: string, intentOn: Answer<Page> -> Intent, p: Prepared)
    requires p == Prepare(replies, i, token, intentOn)
    ensures match intentOn(StatusRun(replies, i).answer)
            case Nothing(r) => p.Stop? && p.result == r && p.forms == []
            case Send(fields) => Posted(p.forms, fields) && (p.Stop? ==> p.result.WebError?)
  {
    ProceedPosts(replies, AfterStatus(replies, i), TokenAfter(replies, i, token), intentOn(StatusRun(replies, i).answer), p);
  }

  /** However a toggle ends, its forms are those that the first status page calls for. */
  lemma EndsPost(replies: Replies, i: nat, token: string, o: Order, intentOn: Answer<Page> -> Intent, start: real, clock: nat -> real,
                 forms: seq<Request>, result: Toggle, end: nat)
    requires PreparedEnds(Prepare(replies, i, token, intentOn), replies, o, start, clock, forms, result, end)
    ensures TogglePosts(intentOn(StatusRun(replies, i).answer), forms, result)
  {
    PreparedPosts(replies, i, token, intentOn, Prepare(replies, i, token, intentOn));
  }

  /** A toggle posts exactly when the first status page shows the port with codes for both settings, and
      refuses with an unknown display value exactly when it shows the port without. */
  lemma RefusedExactlyWhenUncoded(status: Answer<Page>, o: Order, forms: seq<Request>, result: Toggle)
    requires TogglePosts(IntentOn(status, o), forms, result)
    ensures var row := RowIn(status, o.port);
            && (forms != [] <==> row.Some? && Coded(row.value, o))
            && (forms != [] ==> Posted(forms, FormFor(row.value, o.port, o.enabled, o.priority, o.powerup).value))
            && (result == UnknownDisplay <==> row.Some? && !Coded(row.value, o))
            && (result == MissingPort <==> row.None? && status.Ok?)
  {
    var intent := IntentOn(status, o);
    assert intent.Nothing? ==> forms == [];
  }

  /** What was asked of the switch and what it said determine the result. */
  lemma ToggleUnique(replies: Replies, i: nat, token: string, o: Order, start: real, clock: nat -> real,
                     forms: seq<Request>, result: Toggle, end: nat, forms': seq<Request>, result': Toggle, end': nat)
    requires ToggleEnds(replies, i, token, o, start, clock, forms, result, end)
    requires ToggleEnds(replies, i, token, o, start, clock, forms', result', end')
    ensures forms == forms' && result == result' && end == end'
  {
    PreparedUnique(Prepare(replies, i, token, Intended(o)), replies, o, start, clock, forms, result, end, forms', result', end');
  }

  lemma PreparedUnique(prepared: Prepared, replies: Replies, o: Order, start: real, clock: nat -> real,
                       forms: seq<Request>, result: Toggle, end: nat, forms': seq<Request>, result': Toggle, end': nat)
    requires PreparedEnds(prepared, replies, o, start, clock, forms, result, end)
    requires PreparedEnds(prepared, replies, o, start, clock, forms', result', end')
    ensures forms == forms' && result == result' && end == end'
  {
    if prepared.Poll? {
      PollUnique(PollsFrom(replies, prepared.from), ReadingsFrom(replies, prepared.from), o, start, clock, result, end, result', end');
    }
  }

  lemma PollUnique(polls: nat -> nat, readings: Readings, o: Order, start: real, clock: nat -> real,
                   result: Toggle, end: nat, result': Toggle, end': nat)
    requires PollEnds(polls, readings, o, start, clock, result, end) && PollEnds(polls, readings, o, start, clock, result', end')
    ensures result == result' && end == end'
  {
    var n: nat :| AwaitEnds(readings, o.port, o.enabled, start, clock, result, n) && end == polls(ReadingsMade(result, n));
    var n': nat :| AwaitEnds(readings, o.port, o.enabled, start, clock, result', n') && end' == polls(ReadingsMade(result', n'));
    AwaitUnique(readings, o.port, o.enabled, start, clock, result, n, result', n');
  }

  lemma AwaitUnique(readings: Readings, port: nat, enabled: bool, start: real, clock: nat -> real,
                    result: Toggle, n: nat, result': Toggle, n': nat)
    requires AwaitEnds(readings, port, enabled, start, clock, result, n)
    requires AwaitEnds(readings, port, enabled, start, clock, result', n')
    ensures result == result' && n == n'
  {
    assert !Fruitless(readings, port, enabled, start, clock, n);
    assert !Fruitless(readings, port, enabled, start, clock, n');
  }

  // ----- the toggle

  /** One reading of the status table. */
  method ReadStatus(client: Client) returns (answer: Answer<Page>)
    requires !client.inLogin
    modifies client, client.server
    ensures !client.inLogin
    ensures Forms(client.server.log) == Forms(old(client.server.log))
    ensures answer == StatusRun(client.server.replies, |old(client.server.log)|).answer
    ensures |client.server.log| == AfterStatus(client.server.replies, |old(client.server.log)|)
    ensures client.xssid == TokenAfter(client.server.replies, |old(client.server.log)|, old(client.xssid))
  {
    ReadingFacts(client.server.replies, client.server.log);
    answer := client.Get(STATUS_CMD);
  }

  lemma ReadingFacts(replies: Replies, log: seq<Request>)
    ensures Forms(log + StatusRun(replies, |log|).sent) == Forms(log)
    ensures |log + StatusRun(replies, |log|).sent| == AfterStatus(replies, |log|)
  {
    GetSendsNoForm(replies, |log|, STATUS_CMD);
    FormsAppend(log, StatusRun(replies, |log|).sent);
  }

  /** Posts the form of a toggle. */
  method PostToggle(client: Client, fields: Fields) returns (answer: Answer<Page>, ghost forms: seq<Request>)
    requires !client.inLogin
    modifies client, client.server
    ensures !client.inLogin
    ensures Forms(client.server.log) == Forms(old(client.server.log)) + forms
    ensures Submit(client.server.replies, |old(client.server.log)|, PostForm(TOGGLE_CMD, old(client.xssid), fields)) ==
            match answer
            case Raised(e) => Stop(WebError(e), forms, |client.server.log|)
            case Ok(_) => Poll(|client.server.log|, forms)
  {
    ghost var log := client.server.log;
    ghost var run := FetchRun(client.server.replies, |log|, PostForm(TOGGLE_CMD, client.xssid, fields));
    FormsAppend(log, run.sent);
    forms := Forms(run.sent);
    answer := client.PostCmd(TOGGLE_CMD, fields);
  }

  /** The readings and the numbers of requests before them fit the replies. */
  ghost predicate Follows(replies: Replies, polls: nat -> nat, readings: Readings) {
    forall n: nat :: FollowsAt(replies, polls, readings, n)
  }

  predicate FollowsAt(replies: Replies, polls: nat -> nat, readings: Readings, n: nat) {
    polls(n + 1) == AfterStatus(replies, polls(n)) && readings(n) == StatusRun(replies, polls(n)).answer
  }

  lemma FollowsFrom(replies: Replies, i: nat)
    ensures Follows(replies, PollsFrom(replies, i), ReadingsFrom(replies, i))
    ensures PollsFrom(replies, i)(0) == i
  {
  }

  /** The n-th of some readings. */
  method ReadNext(client: Client, ghost polls: nat -> nat, ghost readings: Readings, ghost n: nat) returns (answer: Answer<Page>)
    requires !client.inLogin
    requires Follows(client.server.replies, polls, readings) && |client.server.log| == polls(n)
    modifies client, client.server
    ensures !client.inLogin
    ensures Forms(client.server.log) == Forms(old(client.server.log))
    ensures |client.server.log| == polls(n + 1) && answer == readings(n)
  {
    assert FollowsAt(client.server.replies, polls, readings, n);
    answer := ReadStatus(client);
  }

  /** Polls until the row shows the change. */
  method AwaitRow(client: Client, port: nat, enabled: bool, start: real, clock: nat -> real, ghost polls: nat -> nat, ghost readings: Readings)
      returns (result: Toggle, ghost n: nat)
    requires !client.inLogin
    requires Sleeps(start, clock)
    requires Follows(client.server.replies, polls, readings) && |client.server.log| == polls(0)
    modifies client, client.server
    ensures !client.inLogin
    ensures Forms(client.server.log) == Forms(old(client.server.log))
    ensures AwaitEnds(readings, port, enabled, start, clock, result, n)
    ensures |client.server.log| == polls(ReadingsMade(result, n))
  {
    var deadline := start + VERIFY_TIMEOUT;
    var round := 0;
    while clock(round) < deadline
      invariant round >= 0
      invariant !client.inLogin
      invariant Forms(client.server.log) == Forms(old(client.server.log))
      invariant |client.server.log| == polls(round)
      invariant forall m: nat | m < round :: Fruitless(readings, port, enabled, start, clock, m)
      decreases 20 - round
    {
      RoundsFit(start, clock, round);
      var page := ReadNext(client, polls, readings, round);
      if page.Raised? {
        return WebError(page.error), round;
      }
      if port in page.value.rows {
        var row := page.value.rows[port];
        if enabled {
          if row.mw > 0 {
            return Verified(row), round;
          }
        } else if row.state == "Disable" {
          return Verified(row), round;
        }
      }
      assert Fruitless(readings, port, enabled, start, clock, round);
      round := round + 1;
    }
    result, n := NotVerified, round;
  }

  lemma PrepareIs(replies: Replies, i: nat, token: string, intentOn: Answer<Page> -> Intent, status: Answer<Page>, at: nat, tokenAt: string)
    requires status == StatusRun(replies, i).answer && at == AfterStatus(replies, i) && tokenAt == TokenAfter(replies, i, token)
    ensures Prepare(replies, i, token, intentOn) == Proceed(replies, at, tokenAt, intentOn(status))
  {
  }

  /** Reads the status page, and decides what to post. */
  method ReadIntent(client: Client, intentOn: Answer<Page> -> Intent) returns (intent: Intent)
    requires !client.inLogin
    modifies client, client.server
    ensures !client.inLogin
    ensures Forms(client.server.log) == Forms(old(client.server.log))
    ensures Prepare(client.server.replies, |old(client.server.log)|, old(client.xssid), intentOn) ==
            Proceed(client.server.replies, |client.server.log|, client.xssid, intent)
  {
    var status := ReadStatus(client);
    intent := intentOn(status);
    PrepareIs(client.server.replies, |old(client.server.log)|, old(client.xssid), intentOn, status, |client.server.log|, client.xssid);
  }

  /** The first part of `set_poe_state`: read the row and post the full form. */
  method ReadAndPost(client: Client, port: nat, enabled: bool, priority: string, powerup: string) returns (stop: Option<Toggle>, ghost forms: seq<Request>)
    requires !client.inLogin
    modifies client, client.server
    ensures !client.inLogin
    ensures Forms(client.server.log) == Forms(old(client.server.log)) + forms
    ensures Prepare(client.server.replies, |old(client.server.log)|, old(client.xssid), Intended(Order(port, enabled, priority, powerup))) ==
            if stop.Some? then Stop(stop.value, forms, |client.server.log|) else Poll(|client.server.log|, forms)
  {
    forms := [];
    var intent := ReadIntent(client, Intended(Order(port, enabled, priority, powerup)));
    if intent.Nothing? {
      return Some(intent.result), [];
    }
    var posted;
    posted, forms := PostToggle(client, intent.fields);
    stop := if posted.Raised? then Some(WebError(posted.error)) else None;
  }

  /** `set_poe_state`. */
  method SetPoeState(client: Client, port: nat, enabled: bool, priority: string, powerup: string, start: real, clock: nat -> real)
      returns (result: Toggle, ghost forms: seq<Request>)
    requires !client.inLogin
    requires Sleeps(start, clock)
    modifies client, client.server
    ensures !client.inLogin
    ensures Forms(client.server.log) == Forms(old(client.server.log)) + forms
    ensures ToggleEnds(client.server.replies, |old(client.server.log)|, old(client.xssid), Order(port, enabled, priority, powerup),
                       start, clock, forms, result, |client.server.log|)
  {
    var stop;
    stop, forms := ReadAndPost(client, port, enabled, priority, powerup);
    if stop.Some? {
      return stop.value, forms;
    }
    ghost var from := |client.server.log|;
    FollowsFrom(client.server.replies, from);
    ghost var n;
    result, n := AwaitRow(client, port, enabled, start, clock, PollsFrom(client.server.replies, from), ReadingsFrom(client.server.replies, from));
  }

  /** A returned page is the answer to the last request. */
  lemma LastReply(replies: Replies, i: nat, first: Request)
    ensures var run := FetchRun(replies, i, first);
            |run.sent| > 0 && (run.answer.Ok? ==> replies(i + |run.sent| - 1) == Body(run.answer.value))
  {
  }

  // ----- the effect of the form on the switch

  /** The settings that the form carries for one port. */
  datatype Settings = Settings(enabled: bool, priority: string, powerup: string)

  type Table = map<nat, Settings>

  function PriorityName(code: string): string {
    if code == "0" then "Critical" else if code == "1" then "High" else if code == "2" then "Medium" else "Low"
  }

  function PowerModeName(code: string): string {
    if code == "0" then "802.3af" else if code == "1" then "Legacy" else if code == "2" then "Pre-802.3at" else "802.3at"
  }

  function Lookup(fields: Fields, key: string): string {
    if fields == [] then "" else if fields[0].0 == key then fields[0].1 else Lookup(fields[1..], key)
  }

  /** The switch decodes the codes and stores them for the listed port, and for no other. */
  function Applied(table: Table, fields: Fields): Table {
    var list := Lookup(fields, "portlist");
    if !AllDigits(list) || list == [] || Value(list) !in table then table
    else table[Value(list) := Settings(Lookup(fields, "state") == "1",
                                       PriorityName(Lookup(fields, "portPriority")),
                                       PowerModeName(Lookup(fields, "portPowerMode")))]
  }

  function Shown(s: Settings, mw: nat): Row {
    Row(if s.enabled then "Enable" else "Disable", "", s.priority, s.powerup, mw)
  }

  /** Settings that the switch can display and the client knows. */
  predicate Known(s: Settings) {
    PriorityCode(s.priority).Some? && PowerModeCode(s.powerup).Some?
  }

  /** Codes and displayed values are inverse to each other. */
  lemma CodesAreInverse(s: Settings)
    ensures PriorityCode(s.priority).Some? ==> PriorityName(PriorityCode(s.priority).value) == s.priority
    ensures PowerModeCode(s.powerup).Some? ==> PowerModeName(PowerModeCode(s.powerup).value) == s.powerup
  {
  }

  lemma FormFields(port: nat, state: string, pri: string, mode: string)
    ensures var f := [("portlist", Digits(port)), ("state", state), ("portPriority", pri), ("portPowerMode", mode),
                      ("portLimitMode", "0"), ("portRangeDetection", ""), ("poeTimeRange", "")];
            && Lookup(f, "portlist") == Digits(port) && Lookup(f, "state") == state
            && Lookup(f, "portPriority") == pri && Lookup(f, "portPowerMode") == mode
  {
    var f := [("portlist", Digits(port)), ("state", state), ("portPriority", pri), ("portPowerMode", mode),
              ("portLimitMode", "0"), ("portRangeDetection", ""), ("poeTimeRange", "")];
    assert "state"[0] == 's' && "portlist"[4] == 'l' && "portPriority"[5] == 'r' && "portPowerMode"[5] == 'o';
    assert f[1..][0].0 == "state" && f[2..][0].0 == "portPriority" && f[3..][0].0 == "portPowerMode";
    assert f[1..][1..] == f[2..] && f[2..][1..] == f[3..];
    assert Lookup(f, "portPriority") == Lookup(f[1..], "portPriority") == Lookup(f[2..], "portPriority");
    assert Lookup(f, "portPowerMode") == Lookup(f[1..], "portPowerMode") == Lookup(f[2..], "portPowerMode") == Lookup(f[3..], "portPowerMode");
  }

  /** The form built from the current row changes the admin state of its port and nothing else in the
      whole table. */
  lemma FormTogglesOnePort(table: Table, port: nat, enabled: bool, mw: nat)
    requires port in table && Known(table[port])
    ensures FormFor(Shown(table[port], mw), port, enabled, "", "").Some?
    ensures Applied(table, FormFor(Shown(table[port], mw), port, enabled, "", "").value) == table[port := table[port].(enabled := enabled)]
  {
    var s := table[port];
    CodesAreInverse(s);
    DigitsRoundTrip(port);
    FormFields(port, if enabled then "1" else "0", PriorityCode(s.priority).value, PowerModeCode(s.powerup).value);
  }

  /** Disabling a port and enabling it again restores its settings and leaves every other port as it was. */
  lemma OffAndOnRestores(table: Table, port: nat, mwBefore: nat, mwBetween: nat)
    requires port in table && Known(table[port])
    ensures var off := FormFor(Shown(table[port], mwBefore), port, false, "", "");
            && off.Some?
            && var between := Applied(table, off.value);
               var on := FormFor(Shown(between[port], mwBetween), port, true, "", "");
               && on.Some?
               && Applied(between, on.value) == table[port := table[port].(enabled := true)]
  {
    FormTogglesOnePort(table, port, false, mwBefore);
    var between := table[port := table[port].(enabled := false)];
    FormTogglesOnePort(between, port, true, mwBetween);
  }
}
