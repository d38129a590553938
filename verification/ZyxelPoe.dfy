/** PoE control of the OpenWrt switch: every manage command is verified by polling, and a dropped
    command is repeated once. */
module ZyxelPoe {
  import opened Options
  import opened Text
  import opened VerifyWindow

  const PROTECTED_PORTS := {"lan1", "lan8"}
  const OFF_STATES := {"disabled", "off", "", "fault", "other fault"}
  const TRANSIENT_STATES := {"initializing", "unknown"}
  const POLL_INTERVAL := 0.8
  const MANAGE_ATTEMPTS := 2

  /** Why a set can fail. Everything but `Crash` is an `ExecutionError`. */
  datatype Failure =
    | Protected(port: string)
    | Dropped(port: string, status: string, rest: string)
    | NotVerified(port: string, lastState: string, wantDisabled: bool)
    | SwitchError(text: string)      // ssh failed or timed out, or the port is missing
    | Crash                          // any other exception, for example malformed JSON

  /** A snapshot: the status text and the power as printed with three decimals. */
  datatype Snapshot = Row(status: string, milliwatts: int) | Raises(failure: Failure)

  datatype Sample = Sample(check: real, snapshot: Snapshot, now: real)

  predicate Matches(status: string, wantDisabled: bool) {
    var state := Lower(status);
    (state in OFF_STATES) == wantDisabled && state !in TRANSIENT_STATES
  }

  function ViewOf(snapshot: Snapshot, wantDisabled: bool): View {
    match snapshot
    case Raises(_) => Unreadable
    case Row(status, _) => if Matches(status, wantDisabled) then Accepts else Waiting(false)
  }

  function DigestOf(snapshot: Snapshot): (string, int) {
    match snapshot
    case Raises(_) => ("", 0)
    case Row(status, milliwatts) => (Lower(status), milliwatts)
  }

  function Observe(world: nat -> Sample, wantDisabled: bool): Trace {
    (k: nat) => Poll(world(k).check, world(k).now, DigestOf(world(k).snapshot), ViewOf(world(k).snapshot, wantDisabled))
  }

  /** The clock never goes back and each round sleeps the poll interval. */
  ghost predicate Realistic(world: nat -> Sample, started: real, wantDisabled: bool) {
    Paced(Observe(world, wantDisabled), started, POLL_INTERVAL)
  }

  /** The status the loop saw last before poll `k`. */
  function LastState(world: nat -> Sample, k: nat): string {
    if k > 0 && world(k - 1).snapshot.Row? then world(k - 1).snapshot.status else ""
  }

  /** What `_verify_manage` does to its caller when the loop ends at poll `k`. */
  ghost predicate VerifyEnds(world: nat -> Sample, started: real, port: string, wantDisabled: bool, result: Option<Failure>) {
    exists verdict: Verdict, k: nat :: EndsWith(world, started, port, wantDisabled, verdict, k, result)
  }

  ghost predicate EndsWith(world: nat -> Sample, started: real, port: string, wantDisabled: bool, verdict: Verdict, k: nat, result: Option<Failure>) {
    && Ends(Observe(world, wantDisabled), started, verdict, k)
    && match verdict
       case Reflected => result == None
       case Broken => world(k).snapshot.Raises? && result == Some(world(k).snapshot.failure)
       case Frozen => result.Some? && result.value.Dropped? && result.value.port == port && result.value.status == LastState(world, k + 1)
       case Unverified => result == Some(NotVerified(port, LastState(world, k), wantDisabled))
  }

  /** `_verify_manage`: nothing, or the failure it raises. */
  method VerifyManage(world: nat -> Sample, started: real, port: string, wantDisabled: bool) returns (result: Option<Failure>)
    requires Realistic(world, started, wantDisabled)
    ensures VerifyEnds(world, started, port, wantDisabled, result)
  {
    var verdict, n := Watch(Observe(world, wantDisabled), started, POLL_INTERVAL);
    match verdict {
      case Reflected => result := None;
      case Broken => result := Some(world(n).snapshot.failure);
      case Frozen => result := Some(Dropped(port, LastState(world, n + 1), ""));
      case Unverified => result := Some(NotVerified(port, LastState(world, n), wantDisabled));
    }
    assert EndsWith(world, started, port, wantDisabled, verdict, n, result);
  }

  // ----- the text of a failure decides about the retry

  function Message(f: Failure): string {
    match f
    case Protected(port) => "refusing to toggle protected port '" + port + "'"
    case Dropped(port, status, rest) => "poe manage " + "DROPPED" + ": " + port + " snapshot frozen at '" + status + "' " + rest
    case NotVerified(port, lastState, wantDisabled) =>
      "poe manage UNVERIFIED:" + [' '] + (port + [' '] + ("still" + [' '] + ("" + ['\''] + (lastState + ['\''] + Wanted(wantDisabled)))))
    case SwitchError(text) => text
    case Crash => ""
  }

  function Wanted(wantDisabled: bool): string {
    " after 60s (wanted " + (if wantDisabled then "disabled-class" else "active-class") + ")"
  }

  /** The driver repeats a command when the failure is an execution error whose text mentions the word. */
  predicate LooksDropped(f: Failure) {
    !f.Crash? && Contains(Message(f), "DROPPED")
  }

  lemma Absent(s: string, pat: string, c: char)
    requires c in pat && c !in s
    ensures !Contains(s, pat)
  {
  }

  /** A timed-out verification looks dropped exactly when the name of the port or the status that
      the switch reported last contains the word. */
  lemma NotVerifiedLooksDropped(port: string, lastState: string, wantDisabled: bool)
    ensures LooksDropped(NotVerified(port, lastState, wantDisabled)) <==> Contains(port, "DROPPED") || Contains(lastState, "DROPPED")
  {
    var wanted := Wanted(wantDisabled);
    assert "DROPPED"[3] == 'P';
    Absent("poe manage UNVERIFIED:", "DROPPED", 'P');
    Absent("still", "DROPPED", 'P');
    Absent("", "DROPPED", 'P');
    Absent(wanted, "DROPPED", 'P');
    OnlyInTheBlanks("poe manage UNVERIFIED:", port, "still", lastState, wanted, "DROPPED");
  }

  /** A word without blanks or quotes that is in none of the fixed parts is in one of the others. */
  lemma OnlyInTheBlanks(opening: string, port: string, middle: string, state: string, closing: string, word: string)
    requires word != "" && ' ' !in word && '\'' !in word
    requires !Contains(opening, word) && !Contains(middle, word) && !Contains(closing, word) && !Contains("", word)
    ensures Contains(opening + [' '] + (port + [' '] + (middle + [' '] + ("" + ['\''] + (state + ['\''] + closing)))), word)
            <==> Contains(port, word) || Contains(state, word)
  {
    var quoted := state + ['\''] + closing;
    var tail := "" + ['\''] + quoted;
    var still := middle + [' '] + tail;
    ContainsAcross(opening, ' ', port + [' '] + still, word);
    ContainsAcross(port, ' ', still, word);
    ContainsAcross(middle, ' ', tail, word);
    ContainsAcross("", '\'', quoted, word);
    ContainsAcross(state, '\'', closing, word);
  }

  lemma DroppedLooksDropped(port: string, status: string, rest: string)
    ensures LooksDropped(Dropped(port, status, rest))
  {
    var text := Message(Dropped(port, status, rest));
    assert text[11..18] == "DROPPED";
    assert OccursAt(text, "DROPPED", 11);
  }

  /** Why a failed verification is taken for a dropped command: the frozen verdict, or the word in a
      text that comes from the switch or from the name of the port. */
  lemma RetryCause(world: nat -> Sample, started: real, port: string, wantDisabled: bool, f: Failure)
    requires VerifyEnds(world, started, port, wantDisabled, Some(f))
    requires forall k: nat | world(k).snapshot.Raises? :: world(k).snapshot.failure.SwitchError? || world(k).snapshot.failure.Crash?
    ensures LooksDropped(f) <==>
              || f.Dropped?
              || (f.NotVerified? && (Contains(port, "DROPPED") || Contains(f.lastState, "DROPPED")))
              || (f.SwitchError? && Contains(f.text, "DROPPED"))
  {
    match f
    case Dropped(p, status, rest) => DroppedLooksDropped(p, status, rest);
    case NotVerified(p, lastState, want) => NotVerifiedLooksDropped(p, lastState, want);
    case _ =>
  }

  // ----- the command with its one retry

  /** One try: the answer to the manage command, and the polls that follow it. */
  datatype Attempt = Attempt(manage: Option<Failure>, started: real, world: nat -> Sample)

  ghost predicate AttemptEnds(a: Attempt, port: string, wantDisabled: bool, result: Option<Failure>) {
    if a.manage.Some? then result == a.manage else VerifyEnds(a.world, a.started, port, wantDisabled, result)
  }

  /** What `_set` does: how many commands reach the switch, and what it raises. */
  ghost predicate SetEnds(port: string, enable: bool, budget: Option<Failure>, first: Attempt, second: Attempt, sent: nat, result: Option<Failure>) {
    if port in PROTECTED_PORTS then sent == 0 && result == Some(Protected(port))
    else if enable && budget.Some? then sent == 0 && result == budget
    else if sent == 2 then
      && first.manage == None
      && (exists f :: VerifyEnds(first.world, first.started, port, !enable, Some(f)) && LooksDropped(f))
      && AttemptEnds(second, port, !enable, result)
    else
      && sent == 1
      && AttemptEnds(first, port, !enable, result)
      && (first.manage == None && result.Some? ==> !LooksDropped(result.value))
  }

  class Switch {
    var manages: seq<(string, string)>

    constructor ()
      ensures manages == []
    {
      manages := [];
    }

    method Manage(port: string, action: string)
      modifies this
      ensures manages == old(manages) + [(port, action)]
    {
      manages := manages + [(port, action)];
    }
  }

  function Action(enable: bool): string {
    if enable then "enable" else "disable"
  }

  /** `_set`: `budget` is what the budget guard raises, the attempts are what the switch does. */
  method Set(switch: Switch, port: string, enable: bool, budget: Option<Failure>, attempts: seq<Attempt>) returns (result: Option<Failure>, ghost sent: nat)
    requires |attempts| == MANAGE_ATTEMPTS && forall a | a in attempts :: Realistic(a.world, a.started, !enable)
    modifies switch
    ensures sent <= 2
    ensures switch.manages == old(switch.manages) + seq(sent, _ => (port, if enable then "enable" else "disable"))
    ensures SetEnds(port, enable, budget, attempts[0], attempts[1], sent, result)
  {
    sent := 0;
    if port in PROTECTED_PORTS {
      return Some(Protected(port)), 0;
    }
    if enable && budget.Some? {
      return budget, 0;
    }
    var attempt := 0;
    while true
      invariant 0 <= attempt < MANAGE_ATTEMPTS && sent == attempt
      invariant switch.manages == old(switch.manages) + seq(sent, _ => (port, Action(enable)))
      invariant attempt == 1 ==> attempts[0].manage == None
      invariant attempt == 1 ==>
                  exists f :: VerifyEnds(attempts[0].world, attempts[0].started, port, !enable, Some(f)) && LooksDropped(f)
      decreases MANAGE_ATTEMPTS - attempt
    {
      switch.Manage(port, Action(enable));
      sent := sent + 1;
      result := attempts[attempt].manage;
      if result.Some? {
        return;
      }
      assert attempts[attempt] in attempts;
      result := VerifyManage(attempts[attempt].world, attempts[attempt].started, port, !enable);
      if result == None {
        return;
      }
      if !LooksDropped(result.value) || attempt + 1 == MANAGE_ATTEMPTS {
        return;
      }
      attempt := attempt + 1;
    }
  }

  /** A normal return means that the last snapshot taken shows the wanted class, and no transient state. */
  lemma SuccessIsReflected(port: string, enable: bool, budget: Option<Failure>, first: Attempt, second: Attempt, sent: nat)
    requires SetEnds(port, enable, budget, first, second, sent, None)
    ensures 1 <= sent <= 2 && port !in PROTECTED_PORTS
    ensures var a := if sent == 1 then first else second;
            exists k: nat ::
              && a.world(k).snapshot.Row? && Matches(a.world(k).snapshot.status, !enable)
              && Ends(Observe(a.world, !enable), a.started, Reflected, k)
  {
    var a := if sent == 1 then first else second;
    var verdict: Verdict, k: nat :| EndsWith(a.world, a.started, port, !enable, verdict, k, None);
    assert Observe(a.world, !enable)(k).view == ViewOf(a.world(k).snapshot, !enable);
  }

  /** The status shows what was asked for: an enabled port is not off and not in transition, a disabled one
      is off. */
  predicate AsAsked(status: string, enable: bool) {
    if enable
    then Lower(status) !in {"disabled", "off", "", "fault", "other fault", "initializing", "unknown"}
    else Lower(status) in {"disabled", "off", "", "fault", "other fault"}
  }

  lemma MatchesMeans(status: string, enable: bool)
    ensures Matches(status, !enable) <==> AsAsked(status, enable)
  {
    assert "initializing"[0] == 'i' && "unknown"[0] == 'u' && "disabled"[0] == 'd' && "off"[0] == 'o' && "fault"[0] == 'f' && "other fault"[0] == 'o';
  }

  /** A normal return means that the port is none of the two protected ones, and that the last snapshot
      shows it as asked. */
  lemma SuccessShowsThePort(port: string, enable: bool, budget: Option<Failure>, first: Attempt, second: Attempt, sent: nat)
    requires SetEnds(port, enable, budget, first, second, sent, None)
    ensures port != "lan1" && port != "lan8" && !(enable && budget.Some?)
    ensures var a := if sent == 1 then first else second;
            && a.manage == None
            && exists k: nat ::
                 && a.world(k).snapshot.Row? && AsAsked(a.world(k).snapshot.status, enable)
                 && Ends(Observe(a.world, !enable), a.started, Reflected, k)
  {
    SuccessIsReflected(port, enable, budget, first, second, sent);
    var a := if sent == 1 then first else second;
    var k: nat :|
      && a.world(k).snapshot.Row? && Matches(a.world(k).snapshot.status, !enable)
      && Ends(Observe(a.world, !enable), a.started, Reflected, k);
    MatchesMeans(a.world(k).snapshot.status, enable);
  }

  /** The verification is over at the first snapshot that shows the port as asked or that cannot be taken; a
      snapshot that raises is raised. */
  lemma FirstMatchEndsTheVerification(world: nat -> Sample, started: real, port: string, enable: bool, verdict: Verdict, k: nat, result: Option<Failure>)
    requires EndsWith(world, started, port, !enable, verdict, k, result)
    ensures forall j: nat | j < k :: world(j).snapshot.Row? && !AsAsked(world(j).snapshot.status, enable)
    ensures result == None <==> world(k).check < started + 60.0 && world(k).snapshot.Row? && AsAsked(world(k).snapshot.status, enable)
    ensures world(k).check < started + 60.0 && world(k).snapshot.Raises? ==> result == Some(world(k).snapshot.failure)
    ensures world(k).check >= started + 60.0 ==>
              result == Some(NotVerified(port, if k > 0 then world(k - 1).snapshot.status else "", !enable))
  {
    var t := Observe(world, !enable);
    assert t(k).view == ViewOf(world(k).snapshot, !enable);
    if world(k).snapshot.Row? {
      MatchesMeans(world(k).snapshot.status, enable);
    }
    forall j: nat | j < k
      ensures world(j).snapshot.Row? && !AsAsked(world(j).snapshot.status, enable)
    {
      assert GoesOn(t, started, j) && t(j).view == ViewOf(world(j).snapshot, !enable);
      MatchesMeans(world(j).snapshot.status, enable);
    }
  }

  /** A command that itself fails is raised at once, and never repeated; the second try decides when there
      is one. */
  lemma CommandErrorsAreRaised(port: string, enable: bool, budget: Option<Failure>, first: Attempt, second: Attempt, sent: nat, result: Option<Failure>)
    requires SetEnds(port, enable, budget, first, second, sent, result)
    requires port != "lan1" && port != "lan8" && !(enable && budget.Some?)
    ensures first.manage.Some? ==> sent == 1 && result == first.manage
    ensures sent == 2 && second.manage.Some? ==> result == second.manage
    ensures first.manage.None? && sent == 1 ==> VerifyEnds(first.world, first.started, port, !enable, result)
    ensures sent == 2 && second.manage.None? ==> VerifyEnds(second.world, second.started, port, !enable, result)
    ensures sent == 1 || sent == 2
  {
  }

  /** The uplink and the cascade port are never sent a command. */
  lemma ProtectedPortsAreLeftAlone(port: string, enable: bool, budget: Option<Failure>, first: Attempt, second: Attempt, sent: nat, result: Option<Failure>)
    requires SetEnds(port, enable, budget, first, second, sent, result)
    ensures port == "lan1" || port == "lan8" ==> sent == 0 && result == Some(Protected(port))
    ensures sent == 0 ==> port == "lan1" || port == "lan8" || (enable && budget.Some? && result == budget)
  {
  }

  /** The wedge verdict is about status and power together: both unchanged, up to the case of the status,
      for more than six seconds past the 35th. */
  lemma DroppedMeansUnchanged(world: nat -> Sample, started: real, wantDisabled: bool, k: nat)
    requires Ends(Observe(world, wantDisabled), started, Frozen, k)
    ensures world(k).now > started + 41.0
    ensures exists m: nat :: UnchangedSpan(world, started, m, k)
  {
    var t := Observe(world, wantDisabled);
    FrozenIsSound(t, started, k);
    var m: nat :| FrozenSpan(t, started, m, k);
    forall j: nat | m - 1 <= j <= k
      ensures world(j).snapshot.Row? && world(k).snapshot.Row?
              && Lower(world(j).snapshot.status) == Lower(world(k).snapshot.status) && world(j).snapshot.milliwatts == world(k).snapshot.milliwatts
    {
      assert t(j).view == ViewOf(world(j).snapshot, wantDisabled) && t(k).view == ViewOf(world(k).snapshot, wantDisabled);
      assert t(j).digest == t(k).digest && t(j).digest == DigestOf(world(j).snapshot) && t(k).digest == DigestOf(world(k).snapshot);
    }
    assert UnchangedSpan(world, started, m, k);
  }

  ghost predicate UnchangedSpan(world: nat -> Sample, started: real, m: nat, k: nat) {
    && 1 <= m < k && world(m).now >= started + 35.0 && world(k).now - world(m).now > 6.0
    && forall j: nat | m - 1 <= j <= k ::
         && world(j).snapshot.Row? && world(k).snapshot.Row?
         && Lower(world(j).snapshot.status) == Lower(world(k).snapshot.status) && world(j).snapshot.milliwatts == world(k).snapshot.milliwatts
  }

  /** A switch whose status and power do not change, and do not show what was asked for, is called dropped,
      when rounds take at most `d` with 41 + 2d at most 60. */
  lemma UnchangedIsDropped(world: nat -> Sample, started: real, enable: bool, d: real, verdict: Verdict, k: nat)
    requires Paced(Observe(world, !enable), started, 0.8) && Prompt(Observe(world, !enable), started, d) && 41.0 + 2.0 * d <= 60.0
    requires forall j: nat :: world(j).snapshot == world(0).snapshot && world(0).snapshot.Row?
    requires !AsAsked(world(0).snapshot.status, enable)
    requires Ends(Observe(world, !enable), started, verdict, k)
    ensures verdict == Frozen
  {
    var t := Observe(world, !enable);
    MatchesMeans(world(0).snapshot.status, enable);
    forall j: nat
      ensures t(j).view == Waiting(false) && t(j).digest == t(0).digest
    {
      assert world(j).snapshot == world(0).snapshot;
    }
    FrozenIsComplete(t, started, 0.8, d, verdict, k);
  }

  /** A switch that accepts the command, reflects it after a tolerated lag, and is polled at all before
      the window ends, is served by one command. */
  lemma HealthySwitchNeedsOneCommand(port: string, enable: bool, budget: Option<Failure>, first: Attempt, second: Attempt,
                                     d: real, lag: real, j: nat, sent: nat, result: Option<Failure>)
    requires SetEnds(port, enable, budget, first, second, sent, result)
    requires port != "lan1" && port != "lan8" && !(enable && budget.Some?) && first.manage == None
    requires Realistic(first.world, first.started, !enable)
    requires forall k: nat :: first.world(k).snapshot.Row?
    requires Tolerated(Observe(first.world, !enable), first.started, POLL_INTERVAL, d, lag)
    requires forall k: nat | first.world(k).check >= first.started + lag :: AsAsked(first.world(k).snapshot.status, enable)
    requires first.started + lag <= first.world(j).check < first.started + 60.0
    ensures sent == 1 && result == None
  {
    var t := Observe(first.world, !enable);
    forall verdict: Verdict, k: nat | Ends(t, first.started, verdict, k)
      ensures verdict == Reflected
    {
      forall i: nat | t(i).check >= first.started + lag
        ensures t(i).view.Accepts?
      {
        MatchesMeans(first.world(i).snapshot.status, enable);
      }
      LateReflectionPasses(t, first.started, POLL_INTERVAL, d, lag, j, verdict, k);
    }
  }

  /** No verification takes more than 75 snapshots. */
  lemma SnapshotsPerAttempt(world: nat -> Sample, started: real, wantDisabled: bool, verdict: Verdict, k: nat)
    requires Paced(Observe(world, wantDisabled), started, 0.8)
    requires Ends(Observe(world, wantDisabled), started, verdict, k)
    ensures PollsMade(verdict, k) <= 75
  {
    if PollsMade(verdict, k) > 75 {
      PollsAreBounded(Observe(world, wantDisabled), started, 0.8, verdict, k, 75);
    }
  }

  /** A switch that reports the word as its status, with ever changing power. */
  function ChattySwitch(): nat -> Sample {
    (k: nat) => Sample(POLL_INTERVAL * k as real, Row("DROPPED", k), POLL_INTERVAL * k as real)
  }

  /** A second command can follow a mere timeout: it is the word in the text that counts. This switch
      never freezes, and a set that disables a port on it always sends two commands. */
  lemma ChattySwitchTimesOut(verdict: Verdict, k: nat)
    requires Ends(Observe(ChattySwitch(), true), 0.0, verdict, k)
    ensures verdict == Unverified && LastState(ChattySwitch(), k) == "DROPPED"
  {
    var t := Observe(ChattySwitch(), true);
    assert Lower("DROPPED")[0] == 'd' && Lower("DROPPED")[1] == 'r';
    forall j: nat
      ensures t(j).view == Waiting(false) && t(j).digest.1 == j && t(j).check == POLL_INTERVAL * j as real
    {
      assert t(j).view == ViewOf(Row("DROPPED", j), true) && t(j).digest == DigestOf(Row("DROPPED", j));
    }
  }

  lemma TimeoutCanLookDropped(port: string, second: Attempt, sent: nat, result: Option<Failure>)
    requires port !in PROTECTED_PORTS
    requires SetEnds(port, false, None, Attempt(None, 0.0, ChattySwitch()), second, sent, result)
    ensures Realistic(ChattySwitch(), 0.0, true)
    ensures sent == 2
  {
    assert forall k: nat :: PacedAt(Observe(ChattySwitch(), true), POLL_INTERVAL, k);
    if sent == 1 {
      var verdict: Verdict, k: nat :| EndsWith(ChattySwitch(), 0.0, port, true, verdict, k, result);
      ChattySwitchTimesOut(verdict, k);
      assert OccursAt("DROPPED", "DROPPED", 0);
      NotVerifiedLooksDropped(port, "DROPPED", true);
    }
  }
}
