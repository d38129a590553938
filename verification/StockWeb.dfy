/** The web session of the stock switch: one session per user, so a concurrent login evicts ours
    and the switch answers with its login page. The client then logs in again and repeats the
    request once.

    The switch is arbitrary: `replies` answers the i-th request in any way at all. The `Run`
    functions say what a call sends and returns against given replies; the methods of the client,
    which recurse through each other behind the `inLogin` flag, are proved to do exactly that. */
module StockWeb {
  import opened Options

  /** One row of the PoE status table. */
  datatype Row = Row(state: string, class_: string, priority: string, powerup: string, mw: nat)

  /** A page, by what the client looks for in it. */
  datatype Page = Page(loginShaped: bool, hexId: Option<string>, ok: bool, xssid: Option<string>, rows: map<nat, Row>)

  datatype Reply = Body(page: Page) | NetworkError

  type Fields = seq<(string, string)>

  datatype Request =
    | Credentials
    | LoginCheck(authId: string)
    | GetPage(cmd: int)
    | PostForm(cmd: int, xssid: string, fields: Fields)

  datatype Error = Network | BadAuthId | LoginNeverOk | NoToken | EvictedTwice

  datatype Answer<+T> = Ok(value: T) | Raised(error: Error)

  /** What a call sends, and what it returns or raises. */
  datatype Run<+T> = Run(sent: seq<Request>, answer: Answer<T>)

  type Replies = nat -> Reply

  const TOKEN_PAGES := [1, 30, 550]
  const LOGIN_ATTEMPTS := 3

  function After<T>(request: Request, rest: Run<T>): Run<T> {
    Run([request] + rest.sent, rest.answer)
  }

  /** A run after what has already been sent. */
  function Joined<T>(log: seq<Request>, run: Run<T>): Run<T> {
    Run(log + run.sent, run.answer)
  }

  lemma JoinAfter<T>(log: seq<Request>, request: Request, rest: Run<T>)
    ensures Joined(log, After(request, rest)) == Joined(log + [request], rest)
  {
    assert log + ([request] + rest.sent) == log + [request] + rest.sent;
  }

  function TokenRun(replies: Replies, i: nat, pages: seq<int>): Run<string>
    decreases |pages|
  {
    if pages == [] then Run([], Raised(NoToken))
    else match replies(i)
      case NetworkError => Run([GetPage(pages[0])], Raised(Network))
      case Body(page) =>
        if page.xssid.Some? then Run([GetPage(pages[0])], Ok(page.xssid.value))
        else After(GetPage(pages[0]), TokenRun(replies, i + 1, pages[1..]))
  }

  function LoginRun(replies: Replies, i: nat, attempts: nat): Run<string>
    decreases attempts, 1
  {
    if attempts == 0 then Run([], Raised(LoginNeverOk))
    else match replies(i)
      case NetworkError => Run([Credentials], Raised(Network))
      case Body(page) =>
        if page.hexId.None? then Run([Credentials], Raised(BadAuthId))
        else After(Credentials, After(LoginCheck(page.hexId.value), CheckRun(replies, i + 1, attempts)))
  }

  function CheckRun(replies: Replies, i: nat, attempts: nat): Run<string>
    requires attempts > 0
    decreases attempts, 0
  {
    match replies(i)
    case NetworkError => Run([], Raised(Network))
    case Body(page) => if page.ok then TokenRun(replies, i + 1, TOKEN_PAGES) else LoginRun(replies, i + 1, attempts - 1)
  }

  /** The repetition of a request: a form is built anew with the new token, a page is just asked for again. */
  function Again(first: Request, token: string): Request {
    if first.PostForm? then first.(xssid := token) else first
  }

  function FetchRun(replies: Replies, i: nat, first: Request): Run<Page> {
    match replies(i)
    case NetworkError => Run([first], Raised(Network))
    case Body(page) => if page.loginShaped then After(first, RetryRun(replies, i + 1, first)) else Run([first], Ok(page))
  }

  /** A new login, and on success the request once more. */
  function RetryRun(replies: Replies, i: nat, first: Request): Run<Page> {
    var login := LoginRun(replies, i, LOGIN_ATTEMPTS);
    match login.answer
    case Raised(e) => Run(login.sent, Raised(e))
    case Ok(token) => Run(login.sent + [Again(first, token)], SecondAnswer(replies(i + |login.sent|)))
  }

  function SecondAnswer(reply: Reply): Answer<Page> {
    match reply
    case NetworkError => Raised(Network)
    case Body(page) => if page.loginShaped then Raised(EvictedTwice) else Ok(page)
  }

  /** The token the client holds after a fetch. */
  function TokenAfter(replies: Replies, i: nat, token: string): string {
    match replies(i)
    case NetworkError => token
    case Body(page) =>
      if !page.loginShaped then token
      else match LoginRun(replies, i + 1, LOGIN_ATTEMPTS).answer
        case Raised(_) => token
        case Ok(newToken) => newToken
  }

  class Server {
    const replies: Replies
    var log: seq<Request>

    constructor (replies: Replies)
      ensures log == [] && this.replies == replies
    {
      this.replies := replies;
      log := [];
    }

    method Open(request: Request) returns (reply: Reply)
      modifies this
      ensures log == old(log) + [request] && reply == replies(|old(log)|)
    {
      reply := replies(|log|);
      log := log + [request];
    }
  }

  class Client {
    const server: Server
    var xssid: string
    var inLogin: bool

    /** Logs in at once; raises when that fails. */
    constructor (server: Server)
      modifies server
      ensures this.server == server && !inLogin
      ensures server.log == old(server.log) + LoginRun(server.replies, |old(server.log)|, LOGIN_ATTEMPTS).sent
    {
      this.server := server;
      inLogin := false;
      xssid := "";
      new;
      var result := Login();
    }

    /** A login-shaped page outside a login means that our session was evicted. */
    predicate Evicted(page: Page)
      reads this
    {
      !inLogin && page.loginShaped
    }

    method Login() returns (answer: Answer<string>)
      requires !inLogin
      modifies this, server
      ensures !inLogin
      ensures var run := LoginRun(server.replies, |old(server.log)|, LOGIN_ATTEMPTS);
              && server.log == old(server.log) + run.sent && answer == run.answer
              && xssid == if run.answer.Ok? then run.answer.value else old(xssid)
      decreases 1, 0
    {
      inLogin := true;
      answer := LoginLocked();
      inLogin := false;
    }

    method LoginLocked() returns (answer: Answer<string>)
      requires inLogin
      modifies this, server
      ensures inLogin
      ensures var run := LoginRun(server.replies, |old(server.log)|, LOGIN_ATTEMPTS);
              && server.log == old(server.log) + run.sent && answer == run.answer
              && xssid == if run.answer.Ok? then run.answer.value else old(xssid)
      decreases 0, 3
    {
      ghost var whole := Joined(server.log, LoginRun(server.replies, |server.log|, LOGIN_ATTEMPTS));
      for attempt := 0 to LOGIN_ATTEMPTS
        invariant inLogin && xssid == old(xssid)
        invariant Joined(server.log, LoginRun(server.replies, |server.log|, LOGIN_ATTEMPTS - attempt)) == whole
      {
        ghost var n := |server.log|;
        var first := server.Open(Credentials);
        if first.NetworkError? {
          return Raised(Network);
        }
        if first.page.hexId.None? {
          return Raised(BadAuthId);
        }
        var check := LoginCheck(first.page.hexId.value);
        ghost var rest := CheckRun(server.replies, n + 1, LOGIN_ATTEMPTS - attempt);
        JoinAfter(server.log[..n], Credentials, After(check, rest));
        JoinAfter(server.log, check, rest);
        var second := server.Open(check);
        if second.NetworkError? {
          return Raised(Network);
        }
        if second.page.ok {
          answer := Token();
          if answer.Ok? {
            xssid := answer.value;
          }
          return;
        }
      }
      return Raised(LoginNeverOk);
    }

    /** Looks for the form token on the pages that may carry it. */
    method Token() returns (answer: Answer<string>)
      requires inLogin
      modifies this, server
      ensures inLogin && xssid == old(xssid)
      ensures var run := TokenRun(server.replies, |old(server.log)|, TOKEN_PAGES);
              server.log == old(server.log) + run.sent && answer == run.answer
      decreases 0, 2
    {
      ghost var start := server.log;
      ghost var whole := TokenRun(server.replies, |start|, TOKEN_PAGES);
      for n := 0 to |TOKEN_PAGES|
        invariant inLogin && xssid == old(xssid)
        invariant var rest := TokenRun(server.replies, |server.log|, TOKEN_PAGES[n..]);
                  server.log + rest.sent == start + whole.sent && rest.answer == whole.answer
      {
        var page := Get(TOKEN_PAGES[n]);
        if page.Raised? {
          return Raised(page.error);
        }
        if page.value.xssid.Some? {
          return Ok(page.value.xssid.value);
        }
      }
      return Raised(NoToken);
    }

    method Get(cmd: int) returns (answer: Answer<Page>)
      modifies this, server
      ensures inLogin == old(inLogin)
      ensures old(inLogin) ==> xssid == old(xssid) && server.log == old(server.log) + [GetPage(cmd)] && answer == Plain(server.replies(|old(server.log)|))
      ensures !old(inLogin) ==>
                var run := FetchRun(server.replies, |old(server.log)|, GetPage(cmd));
                && server.log == old(server.log) + run.sent && answer == run.answer
                && xssid == TokenAfter(server.replies, |old(server.log)|, old(xssid))
      ensures !old(inLogin) && answer.Ok? ==>
                && !answer.value.loginShaped
                && |server.log| > |old(server.log)| && server.log[|server.log| - 1] == GetPage(cmd)
                && server.replies(|server.log| - 1) == Body(answer.value)
      decreases if inLogin then 0 else 1, if inLogin then 1 else 3
    {
      FetchReturnsWhatItAskedFor(server.replies, |server.log|, GetPage(cmd));
      answer := Fetch(GetPage(cmd));
    }

    /** Posts a form with the token of the current session. If the last thing sent is a form, it carries
        the token that the client keeps; a returned page is no login page. */
    method PostCmd(cmd: int, fields: Fields) returns (answer: Answer<Page>)
      requires !inLogin
      modifies this, server
      ensures !inLogin
      ensures var run := FetchRun(server.replies, |old(server.log)|, PostForm(cmd, old(xssid), fields));
              && server.log == old(server.log) + run.sent && answer == run.answer
              && xssid == TokenAfter(server.replies, |old(server.log)|, old(xssid))
      ensures |server.log| > 0 && (server.log[|server.log| - 1].PostForm? ==> server.log[|server.log| - 1].xssid == xssid)
      ensures answer.Ok? ==>
                && !answer.value.loginShaped
                && server.log[|server.log| - 1] == PostForm(cmd, xssid, fields)
                && server.replies(|server.log| - 1) == Body(answer.value)
      decreases 1, 3
    {
      LastFormIsFresh(server.replies, |server.log|, PostForm(cmd, xssid, fields));
      FetchReturnsWhatItAskedFor(server.replies, |server.log|, PostForm(cmd, xssid, fields));
      answer := Fetch(PostForm(cmd, xssid, fields));
    }

    method Fetch(request: Request) returns (answer: Answer<Page>)
      modifies this, server
      ensures inLogin == old(inLogin)
      ensures old(inLogin) ==> xssid == old(xssid) && server.log == old(server.log) + [request] && answer == Plain(server.replies(|old(server.log)|))
      ensures !old(inLogin) ==>
                var run := FetchRun(server.replies, |old(server.log)|, request);
                && server.log == old(server.log) + run.sent && answer == run.answer
                && xssid == TokenAfter(server.replies, |old(server.log)|, old(xssid))
      decreases if inLogin then 0 else 1, if inLogin then 0 else 2
    {
      var reply := server.Open(request);
      if reply.NetworkError? {
        return Raised(Network);
      }
      if Evicted(reply.page) {
        ghost var n := |old(server.log)|;
        JoinAfter(old(server.log), request, RetryRun(server.replies, n + 1, request));
        answer := Retry(request);
        return;
      }
      return Ok(reply.page);
    }

    /** Logs in with a clean session and repeats the request; a second eviction gives up. */
    method Retry(request: Request) returns (answer: Answer<Page>)
      requires !inLogin
      modifies this, server
      ensures !inLogin
      ensures var run := RetryRun(server.replies, |old(server.log)|, request);
              server.log == old(server.log) + run.sent && answer == run.answer
      ensures var login := LoginRun(server.replies, |old(server.log)|, LOGIN_ATTEMPTS);
              xssid == if login.answer.Ok? then login.answer.value else old(xssid)
      decreases 1, 1
    {
      var login := Login();
      if login.Raised? {
        return Raised(login.error);
      }
      var reply := server.Open(Again(request, xssid));
      if reply.NetworkError? {
        return Raised(Network);
      }
      if Evicted(reply.page) {
        return Raised(EvictedTwice);
      }
      return Ok(reply.page);
    }
  }

  /** A reply as the login code sees it. */
  function Plain(reply: Reply): Answer<Page> {
    match reply
    case NetworkError => Raised(Network)
    case Body(page) => Ok(page)
  }

  // ----- what every call keeps, for every switch

  lemma {:induction false} TokenRunFacts(replies: Replies, i: nat, pages: seq<int>)
    ensures var run := TokenRun(replies, i, pages);
            && |run.sent| <= |pages|
            && (forall k | 0 <= k < |run.sent| :: run.sent[k].GetPage?)
            && (run.answer.Ok? ==> |run.sent| > 0 && replies(i + |run.sent| - 1).Body?
                                   && replies(i + |run.sent| - 1).page.xssid == Some(run.answer.value))
    decreases |pages|
  {
    if pages != [] {
      TokenRunFacts(replies, i + 1, pages[1..]);
    }
  }

  /** Request `k` of a login is a login request, and an authorisation check carries the identifier
      that the switch issued in the reply just before. */
  ghost predicate LoginRequest(replies: Replies, i: nat, sent: seq<Request>, k: nat)
    requires k < |sent|
  {
    match sent[k]
    case PostForm(_, _, _) => false
    case LoginCheck(authId) => i + k > 0 && replies(i + k - 1).Body? && replies(i + k - 1).page.hexId == Some(authId)
    case _ => true
  }

  ghost predicate LoginRequests(replies: Replies, i: nat, sent: seq<Request>) {
    forall k: nat | k < |sent| :: LoginRequest(replies, i, sent, k)
  }

  lemma {:induction false} LoginRunFacts(replies: Replies, i: nat, attempts: nat)
    ensures var run := LoginRun(replies, i, attempts);
            && |run.sent| <= 2 * attempts + 3
            && LoginRequests(replies, i, run.sent)
            && (run.answer.Ok? ==> |run.sent| > 0 && replies(i + |run.sent| - 1).Body?
                                   && replies(i + |run.sent| - 1).page.xssid == Some(run.answer.value))
    decreases attempts, 1
  {
    if attempts > 0 && replies(i).Body? && replies(i).page.hexId.Some? {
      var rest := CheckRun(replies, i + 1, attempts);
      CheckRunFacts(replies, i + 1, attempts);
      var sent := LoginRun(replies, i, attempts).sent;
      assert sent == [Credentials, LoginCheck(replies(i).page.hexId.value)] + rest.sent;
      forall k: nat | k < |sent|
        ensures LoginRequest(replies, i, sent, k)
      {
        if k >= 2 {
          assert sent[k] == rest.sent[k - 2] && LoginRequest(replies, i + 2, rest.sent, k - 2);
        }
      }
    }
  }

  lemma {:induction false} CheckRunFacts(replies: Replies, i: nat, attempts: nat)
    requires attempts > 0
    ensures var run := CheckRun(replies, i, attempts);
            && |run.sent| <= 2 * (attempts - 1) + 3
            && LoginRequests(replies, i + 1, run.sent)
            && (run.answer.Ok? ==> |run.sent| > 0 && replies(i + |run.sent|).Body?
                                   && replies(i + |run.sent|).page.xssid == Some(run.answer.value))
    decreases attempts, 0
  {
    if replies(i).Body? {
      if replies(i).page.ok {
        TokenRunFacts(replies, i + 1, TOKEN_PAGES);
      } else {
        LoginRunFacts(replies, i + 1, attempts - 1);
      }
    }
  }

  /** A call sends at most eleven requests: its own, at most nine to log in again, its own again. */
  lemma FetchIsBounded(replies: Replies, i: nat, first: Request)
    ensures 1 <= |FetchRun(replies, i, first).sent| <= 11
  {
    LoginRunFacts(replies, i + 1, LOGIN_ATTEMPTS);
  }

  /** A call asks for the same thing first and last: the page it returns is the reply to its own request,
      or to the same request with another token, and never a login page. */
  lemma FetchReturnsWhatItAskedFor(replies: Replies, i: nat, first: Request)
    ensures var run := FetchRun(replies, i, first); var last := |run.sent| - 1;
            && last >= 0 && run.sent[0] == first
            && (run.answer.Ok? ==>
                  && (if first.PostForm? then run.sent[last].PostForm? && run.sent[last] == first.(xssid := run.sent[last].xssid)
                      else run.sent[last] == first)
                  && replies(i + last) == Body(run.answer.value) && !run.answer.value.loginShaped)
  {
  }

  /** Without an eviction there is one request: an ordinary page is returned, and a network error raised. */
  lemma UndisturbedFetch(replies: Replies, i: nat, first: Request)
    ensures replies(i) == NetworkError ==> FetchRun(replies, i, first) == Run([first], Raised(Network))
    ensures replies(i).Body? && !replies(i).page.loginShaped ==> FetchRun(replies, i, first) == Run([first], Ok(replies(i).page))
  {
  }

  /** An eviction is answered by one login. When that fails its error is raised, and nothing else is sent;
      when it succeeds the request is repeated once, and a second eviction is raised as such. */
  lemma EvictedFetch(replies: Replies, i: nat, first: Request)
    requires replies(i).Body? && replies(i).page.loginShaped
    ensures var (run, login) := (FetchRun(replies, i, first), LoginRun(replies, i + 1, 3));
            var second := replies(i + 1 + |login.sent|);
            && (login.answer.Raised? ==> run == Run([first] + login.sent, Raised(login.answer.error)))
            && (login.answer.Ok? ==> |run.sent| == |login.sent| + 2 && run.sent[..|run.sent| - 1] == [first] + login.sent)
            && (login.answer.Ok? ==>
                  run.answer == match second
                                case NetworkError => Raised(Network)
                                case Body(page) => if page.loginShaped then Raised(EvictedTwice) else Ok(page))
  {
    var login := LoginRun(replies, i + 1, 3);
    assert LOGIN_ATTEMPTS == 3;
    if login.answer.Ok? {
      var again := [Again(first, login.answer.value)];
      assert [first] + (login.sent + again) == ([first] + login.sent) + again;
    }
  }

  /** A login that goes well at once: credentials, the check with the identifier just issued, and the form
      token from page 1, else from page 30, else from page 550, else none. */
  lemma LoginAtOnce(replies: Replies, i: nat, id: string, attempts: nat)
    requires attempts > 0 && forall k: nat | i <= k < i + 5 :: replies(k).Body?
    requires replies(i).page.hexId == Some(id) && replies(i + 1).page.ok
    ensures LoginRun(replies, i, attempts) ==
            if replies(i + 2).page.xssid.Some? then Run([Credentials, LoginCheck(id), GetPage(1)], Ok(replies(i + 2).page.xssid.value))
            else if replies(i + 3).page.xssid.Some?
            then Run([Credentials, LoginCheck(id), GetPage(1), GetPage(30)], Ok(replies(i + 3).page.xssid.value))
            else if replies(i + 4).page.xssid.Some?
            then Run([Credentials, LoginCheck(id), GetPage(1), GetPage(30), GetPage(550)], Ok(replies(i + 4).page.xssid.value))
            else Run([Credentials, LoginCheck(id), GetPage(1), GetPage(30), GetPage(550)], Raised(NoToken))
  {
    assert TokenRun(replies, i + 5, []) == Run([], Raised(NoToken));
    TokenStep(replies, i + 4, [550]);
    TokenStep(replies, i + 3, [30, 550]);
    TokenStep(replies, i + 2, [1, 30, 550]);
  }

  lemma TokenStep(replies: Replies, i: nat, pages: seq<int>)
    requires pages != [] && replies(i).Body?
    ensures TokenRun(replies, i, pages) ==
            if replies(i).page.xssid.Some? then Run([GetPage(pages[0])], Ok(replies(i).page.xssid.value))
            else After(GetPage(pages[0]), TokenRun(replies, i + 1, pages[1..]))
  {
  }

  /** An answer that is no identifier ends the login at once. */
  lemma LoginWithoutId(replies: Replies, i: nat, attempts: nat)
    requires attempts > 0 && replies(i).Body? && replies(i).page.hexId == None
    ensures LoginRun(replies, i, attempts) == Run([Credentials], Raised(BadAuthId))
  {
  }

  /** Three refused checks, each with an identifier of its own, end the login. */
  lemma LoginRefused(replies: Replies, i: nat, first: string, second: string, third: string)
    requires forall k: nat | i <= k < i + 6 :: replies(k).Body?
    requires replies(i).page.hexId == Some(first) && !replies(i + 1).page.ok
    requires replies(i + 2).page.hexId == Some(second) && !replies(i + 3).page.ok
    requires replies(i + 4).page.hexId == Some(third) && !replies(i + 5).page.ok
    ensures LoginRun(replies, i, 3) ==
            Run([Credentials, LoginCheck(first), Credentials, LoginCheck(second), Credentials, LoginCheck(third)], Raised(LoginNeverOk))
  {
    RefusedOnce(replies, i + 4, 1);
    RefusedOnce(replies, i + 2, 2);
    RefusedOnce(replies, i, 3);
  }

  lemma RefusedOnce(replies: Replies, i: nat, attempts: nat)
    requires attempts > 0 && replies(i).Body? && replies(i + 1).Body? && replies(i).page.hexId.Some? && !replies(i + 1).page.ok
    ensures LoginRun(replies, i, attempts) ==
            After(Credentials, After(LoginCheck(replies(i).page.hexId.value), LoginRun(replies, i + 2, attempts - 1)))
  {
  }

  ghost predicate NoForms(sent: seq<Request>) {
    forall k | 0 <= k < |sent| :: !sent[k].PostForm?
  }

  /** What a call that posts `first` may send: nothing but login requests between the first form and a
      possible second one, which carries the token issued in the reply just before. */
  ghost predicate FormsInOrder(replies: Replies, i: nat, first: Request, sent: seq<Request>)
    requires first.PostForm?
  {
    var last := |sent| - 1;
    && last >= 0 && sent[0] == first
    && NoForms(sent[1..if last > 0 then last else 1])
    && (last > 0 && sent[last].PostForm? ==>
          && sent[last] == first.(xssid := sent[last].xssid)
          && replies(i + last - 1).Body? && replies(i + last - 1).page.xssid == Some(sent[last].xssid))
  }

  lemma LoginHasNoForms(replies: Replies, i: nat)
    ensures NoForms(LoginRun(replies, i, LOGIN_ATTEMPTS).sent)
    ensures var run := LoginRun(replies, i, LOGIN_ATTEMPTS);
            run.answer.Ok? ==> |run.sent| > 0 && replies(i + |run.sent| - 1).Body?
                               && replies(i + |run.sent| - 1).page.xssid == Some(run.answer.value)
  {
    var sent := LoginRun(replies, i, LOGIN_ATTEMPTS).sent;
    LoginRunFacts(replies, i, LOGIN_ATTEMPTS);
    forall k | 0 <= k < |sent|
      ensures !sent[k].PostForm?
    {
      assert LoginRequest(replies, i, sent, k);
    }
  }

  lemma FormsWithoutRetry(replies: Replies, i: nat, first: Request, login: seq<Request>)
    requires first.PostForm? && NoForms(login)
    ensures FormsInOrder(replies, i, first, [first] + login)
  {
    var sent := [first] + login;
    assert forall k | 0 < k < |sent| :: sent[k] == login[k - 1];
  }

  lemma FormsWithRetry(replies: Replies, i: nat, first: Request, login: seq<Request>, token: string)
    requires first.PostForm? && NoForms(login) && |login| > 0
    requires replies(i + |login|).Body? && replies(i + |login|).page.xssid == Some(token)
    ensures FormsInOrder(replies, i, first, [first] + (login + [first.(xssid := token)]))
  {
    var sent := [first] + (login + [first.(xssid := token)]);
    assert forall k | 0 < k <= |login| :: sent[k] == login[k - 1];
  }

  /** A form is posted at most twice: first with the token the client held, and then only after a
      new login, with the token that the switch issued in the reply just before. */
  lemma RetriedFormIsFresh(replies: Replies, i: nat, first: Request)
    requires first.PostForm?
    ensures FormsInOrder(replies, i, first, FetchRun(replies, i, first).sent)
  {
    var login := LoginRun(replies, i + 1, LOGIN_ATTEMPTS);
    LoginHasNoForms(replies, i + 1);
    if !(replies(i).Body? && replies(i).page.loginShaped) {
      FormsWithoutRetry(replies, i, first, []);
      assert [first] + [] == [first];
    } else if login.answer.Ok? {
      FormsWithRetry(replies, i, first, login.sent, login.answer.value);
    } else {
      FormsWithoutRetry(replies, i, first, login.sent);
    }
  }

  lemma LastFormIsFresh(replies: Replies, i: nat, first: Request)
    requires first.PostForm?
    ensures var sent := FetchRun(replies, i, first).sent;
            |sent| > 0 && (sent[|sent| - 1].PostForm? ==> sent[|sent| - 1].xssid == TokenAfter(replies, i, first.xssid))
  {
    var login := LoginRun(replies, i + 1, LOGIN_ATTEMPTS);
    LoginHasNoForms(replies, i + 1);
    if replies(i).Body? && replies(i).page.loginShaped && login.answer.Raised? && login.sent != [] {
      var sent := [first] + login.sent;
      assert sent[|sent| - 1] == login.sent[|login.sent| - 1];
    }
  }

  /** The bound of eleven is reached: evicted, two logins refused, the third accepted, the token only
      on the last page, and the repetition answered. */
  function StubbornSwitch(): Replies {
    (n: nat) =>
      if n == 0 then Body(Page(true, None, false, None, map[]))
      else if n < 6 && n % 2 == 1 then Body(Page(false, Some("A"), false, None, map[]))
      else if n < 6 then Body(Page(false, None, false, None, map[]))
      else if n == 6 then Body(Page(false, None, true, None, map[]))
      else if n < 9 then Body(Page(false, None, false, None, map[]))
      else Body(Page(false, None, false, Some("B"), map[]))
  }

  lemma ElevenIsReached(first: Request)
    ensures |FetchRun(StubbornSwitch(), 0, first).sent| == 11 && FetchRun(StubbornSwitch(), 0, first).answer.Ok?
  {
    var r := StubbornSwitch();
    assert TokenRun(r, 9, [550]) == Run([GetPage(550)], Ok("B"));
    assert TokenRun(r, 8, [30, 550]) == Run([GetPage(30), GetPage(550)], Ok("B"));
    assert TokenRun(r, 7, TOKEN_PAGES) == Run([GetPage(1), GetPage(30), GetPage(550)], Ok("B"));
    var third := LoginRun(r, 5, 1);
    assert |third.sent| == 5 && third.answer == Ok("B");
    var second := LoginRun(r, 3, 2);
    assert |second.sent| == 7 && second.answer == Ok("B");
    assert |LoginRun(r, 1, LOGIN_ATTEMPTS).sent| == 9;
  }
}
