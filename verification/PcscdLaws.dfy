/** What a call of `restart` promises, in terms of the answers it was given and nothing else. */
module PcscdLaws {
  import opened Options
  import opened Text
  import opened HolderRecord
  import opened PcscdDomain
  import opened PcscdHost
  import opened Labgrid
  import opened PcscdCtl

  /** The reply names no place of another lane: there is none, or a failure, or no such row. */
  predicate NamesNobody(project: string, reply: Reply) {
    || reply.Unreachable?
    || reply.code != 0
    || forall i | 0 <= i < |SplitLines(reply.output)| :: !OtherRow(project, SplitLines(reply.output)[i])
  }

  lemma OthersExactly(project: string, reply: Reply)
    ensures Others(project, reply) == [] <==> NamesNobody(project, reply)
  {
    if reply.Answer? {
      NobodyReported(project, SplitLines(reply.output));
    }
  }

  /** The acquire phase of the call ends with the lock granted. */
  ghost predicate GetsTheLock(s: State, call: Call, around: Around) {
    exists n: nat, u: State ::
      AcquireEnds(TriesFrom(Begun(s, call, []), call.id, around.tries, around.waits), call.id, around.tries, around.after, n, u, None)
  }

  /** The rows of other lanes in the table of a reply. */
  function RowsIn(project: string, reply: Reply): seq<string>
    requires reply.Answer?
  {
    OtherRows(project, SplitLines(reply.output))
  }

  /** A call is denied at once exactly when the reply before the lock succeeded and names other lanes, and
      then with exactly their rows. */
  lemma DeniedExactly(s: State, call: Call, around: Around, report: Report, t: State, rows: seq<string>)
    requires RestartEnds(s, call, around, report, t)
    ensures var before := around.outside.before;
            report == Returned(Denied(rows)) <==>
            before.Answer? && before.code == 0 && rows != [] && rows == RowsIn(call.project, before)
  {
    if Others(call.project, around.outside.before) == [] {
      NotDeniedLater(TriesFrom(Begun(s, call, []), call.id, around.tries, around.waits), call, around, report, t);
    }
  }

  lemma NotDeniedLater(tried: nat -> State, call: Call, around: Around, report: Report, t: State)
    requires TryingEnds(tried, call, around, report, t)
    ensures report.Returned? ==> !report.result.Denied?
  {
    var n: nat, u: State, heldBy: Option<map<string, string>> :|
      && AcquireEnds(tried, call.id, around.tries, around.after, n, u, heldBy)
      && if heldBy.Some? then report == HeldError(heldBy.value) && t == u else HoldingEnds(u, call, around, report, t);
    if heldBy == None {
      Held(u, call, around, report, t);
    }
  }

  /** What the part under the lock can report. */
  ghost predicate HeldReport(call: Call, around: Around, report: Report) {
    && report.Returned?
    && !report.result.Denied? && !report.result.Ended?
    && (report.result.DeniedLate? <==> !NamesNobody(call.project, around.outside.under))
    && (report.result.DeniedLate? ==>
          around.outside.under.Answer? && around.outside.under.code == 0 && report.result.holders == RowsIn(call.project, around.outside.under))
    && (!report.result.DeniedLate? ==> RestartReport(call, around, report.result))
  }

  /** What a call that has restarted reports: `n` probes said "unstable" before the end. */
  ghost predicate RestartReport(call: Call, around: Around, result: Result) {
    match around.outside.systemctl
    case None => result == Raised
    case Some(rc) => WaitsSomehow(around.outside.probes, around.probing, call.patience - Delay(around.locked(2)), rc, result)
  }

  ghost predicate WaitsSomehow(probes: nat -> ProbeAnswer, probing: Schedule, room: real, rc: int, result: Result) {
    exists n: nat :: Waits(probes, probing, room, n, rc, result)
  }

  ghost predicate Waits(probes: nat -> ProbeAnswer, probing: Schedule, room: real, n: nat, rc: int, result: Result) {
    && (forall m: nat | m < n :: probes(m) == Unstable)
    && match result
       case Finished(code, true) => code == rc && probes(n) == Stable && Elapsed(probing, n) < room
       case Finished(code, false) => code == rc && Elapsed(probing, n) >= room && (n > 0 ==> Elapsed(probing, n - 1) < room)
       case Raised => probes(n) == ProbeError && Elapsed(probing, n) < room
       case _ => false
  }

  lemma WaitEndsMeans(probes: nat -> ProbeAnswer, probing: Schedule, room: real, n: nat, rc: int, result: Result)
    requires WaitEnds(probes, probing, room, n, rc, result)
    ensures Waits(probes, probing, room, n, rc, result)
  {
    forall m: nat | m < n
      ensures probes(m) == Unstable && Elapsed(probing, m) < room
    {
      assert AsksOn(probes, probing, room, m);
    }
  }

  lemma Held(s: State, call: Call, around: Around, report: Report, t: State)
    requires HoldingEnds(s, call, around, report, t)
    ensures HeldReport(call, around, report)
  {
    var result: Result, u: State :| LockedEnds(s, call, around, result, u) && report == Returned(result) && t == Freed(u, call.id, []);
    OthersExactly(call.project, around.outside.under);
    if Others(call.project, around.outside.under) == [] && around.outside.systemctl.Some? {
      Waited(s, call, around, result, u);
    }
  }

  lemma Waited(s: State, call: Call, around: Around, result: Result, u: State)
    requires LockedEnds(s, call, around, result, u)
    requires Others(call.project, around.outside.under) == [] && around.outside.systemctl.Some?
    ensures RestartReport(call, around, result)
  {
    var rc := around.outside.systemctl.value;
    var room := call.patience - Delay(around.locked(2));
    var checked := After(s, Own(call.id, LateChecked([])), call.id, around.locked(0));
    var issued := After(checked, Own(call.id, IssueRestart), call.id, around.locked(1));
    var asked := AskedFrom(Back(issued, call.id, rc, call.patience, around.locked(2)), call.id, around.probing);
    assert WaitedFrom(asked, call.id, around, room, rc, result, u);
    var n: nat :| ProbeEnds(asked, call.id, around.outside.probes, around.probing, room, n, rc, result, u);
    WaitEndsMeans(around.outside.probes, around.probing, room, n, rc, result);
  }

  lemma TryingMeans(tried: nat -> State, call: Call, around: Around, report: Report, t: State)
    requires TryingEnds(tried, call, around, report, t)
    ensures report.Returned? <==> exists n: nat, u: State :: AcquireEnds(tried, call.id, around.tries, around.after, n, u, None)
    ensures report.Returned? ==> HeldReport(call, around, report)
  {
    var n: nat, u: State, heldBy: Option<map<string, string>> :|
      && AcquireEnds(tried, call.id, around.tries, around.after, n, u, heldBy)
      && if heldBy.Some? then report == HeldError(heldBy.value) && t == u else HoldingEnds(u, call, around, report, t);
    if heldBy == None {
      Held(u, call, around, report, t);
    } else if n': nat, u': State :| AcquireEnds(tried, call.id, around.tries, around.after, n', u', None) {
      AcquireUnique(tried, call.id, around.tries, around.after, n, u, heldBy, n', u', None);
    }
  }

  /** A call that got past the first check and the lock is denied exactly when the reply under the lock
      succeeded and names other lanes, and then with exactly their rows. */
  lemma LateDeniedExactly(s: State, call: Call, around: Around, report: Report, t: State, rows: seq<string>)
    requires RestartEnds(s, call, around, report, t)
    ensures var under := around.outside.under;
            report == Returned(DeniedLate(rows)) <==>
            && NamesNobody(call.project, around.outside.before) && GetsTheLock(s, call, around)
            && under.Answer? && under.code == 0 && rows != [] && rows == RowsIn(call.project, under)
  {
    OthersExactly(call.project, around.outside.before);
    OthersExactly(call.project, around.outside.under);
    if Others(call.project, around.outside.before) == [] {
      TryingMeans(TriesFrom(Begun(s, call, []), call.id, around.tries, around.waits), call, around, report, t);
    }
  }

  /** A call restarts only when neither reply names another lane: not the one before the lock, and not the
      one under it. What it then reports is what systemctl and PC/SC answered: it raises exactly for a
      systemctl that did or a probe that did, and is stable exactly for a first answer "stable" in time. */
  lemma RestartsOnlyForNobody(s: State, call: Call, around: Around, report: Report, t: State)
    requires RestartEnds(s, call, around, report, t)
    requires report.Returned? && (report.result.Finished? || report.result.Raised?)
    ensures NamesNobody(call.project, around.outside.before) && NamesNobody(call.project, around.outside.under)
    ensures GetsTheLock(s, call, around) && RestartReport(call, around, report.result)
  {
    OthersExactly(call.project, around.outside.before);
    if Others(call.project, around.outside.before) == [] {
      TryingMeans(TriesFrom(Begun(s, call, []), call.id, around.tries, around.waits), call, around, report, t);
    }
  }

  lemma {:induction false} FollowTime(s: State, me: nat, schedule: seq<Step>)
    requires me in s.actors
    ensures var t := Follow(s, me, schedule); t.now == s.now + Delay(schedule) && me in t.actors && t.actors[me] == s.actors[me]
  {
    if schedule != [] {
      var init := schedule[..|schedule| - 1];
      FollowTime(s, me, init);
      var (t, step) := (Follow(s, me, init), schedule[|schedule| - 1]);
      if Enabled(t, step) && Foreign(t, step, me) {
        ForeignKeeps(t, step, me);
      }
    }
  }

  /** A call waits for the lock until its patience after the opening of the file, and tries again half a
      second after each refusal, plus what the others delay it. */
  lemma TriesAreTimed(s: State, call: Call, t: State, id: nat, schedule: seq<Step>)
    requires call.id !in s.actors
    requires id in t.actors && t.actors[id].pc.Refused? && t.now < t.actors[id].deadline
    ensures var begun := Begun(s, call, []);
            && call.id in begun.actors && begun.now == s.now && begun.actors[call.id].deadline == s.now + call.wait
            && begun.actors[call.id].pc == Polling(s.now) && begun.actors[call.id].record == call.record
    ensures Pause(t, id, schedule).now == t.now + 0.5 + Delay(schedule)
  {
    var u := Did(t, Own(id, PcscdDomain.Backoff));
    assert id in u.actors && u.now == t.now;
    var v := Did(u, Tick(0.5));
    FollowTime(v, id, schedule);
  }

  /** A caller gives up at its first refusal at or past its deadline, and at no other; it is shown what it
      reads in the lock file. */
  lemma GivesUpOnTime(tried: nat -> State, id: nat, tries: Schedule, after: Schedule, n: nat, t: State, heldBy: map<string, string>, m: nat)
    requires AcquireEnds(tried, id, tries, after, n, t, Some(heldBy)) && m <= n && id in Refusal(tried(m), id, tries(m)).actors
    ensures var refused := Refusal(tried(m), id, tries(m)); refused.now < refused.actors[id].deadline <==> m < n
    ensures heldBy == Parse(t.file)
  {
    if m < n {
      assert TriesOn(tried, id, tries, m);
    }
  }

  lemma {:induction false} QuietElapsed(probing: Schedule, n: nat)
    requires forall k: nat :: Delay(probing(k)) == 0.0
    ensures Elapsed(probing, n) == n as real
  {
    if n > 0 {
      QuietElapsed(probing, n - 1);
    }
  }

  /** Probes come one second apart: when nobody delays the call, twenty seconds of patience are exactly
      twenty unstable answers, and a stable one among them ends the wait. */
  lemma TwentyProbes(probes: nat -> ProbeAnswer, probing: Schedule, n: nat, rc: int, result: Result)
    requires forall k: nat :: Delay(probing(k)) == 0.0
    requires Waits(probes, probing, 20.0, n, rc, result)
    ensures result == Finished(rc, false) ==> n == 20
    ensures result == Finished(rc, true) || result == Raised ==> n < 20
  {
    QuietElapsed(probing, n);
    if n > 0 {
      QuietElapsed(probing, n - 1);
    }
  }

  /** Every exit code, and what it stands for. */
  lemma ExitCodes(report: Report)
    ensures ExitCode(report) == 0 <==> report == Returned(Finished(0, true))
    ensures ExitCode(report) == 4 <==> report.Returned? && report.result.Finished? && report.result.stable && report.result.rc != 0
    ensures ExitCode(report) == 3 <==> report.HeldError?
    ensures ExitCode(report) == 1 <==> report == Returned(Raised)
    ensures ExitCode(report) == 2 <==>
              report.Returned? && (report.result.Denied? || report.result.DeniedLate? || report.result.Ended?
                                   || (report.result.Finished? && !report.result.stable))
  {
  }
}
