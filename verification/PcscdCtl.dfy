/** The coordinated pcscd restart and the exit code that reports it. */
module PcscdCtl {
  import opened Options
  import opened Text
  import opened HolderRecord
  import opened PcscdDomain
  import opened PcscdSafety
  import opened PcscdHost
  import opened Labgrid

  datatype ProbeAnswer = Stable | Unstable | ProbeError

  /** What the outside answers to one call: labgrid before and under the lock, systemctl's return
      code (none when it times out), and PC/SC at each probe. */
  datatype Outside = Outside(before: Reply, under: Reply, systemctl: Option<int>, probes: nat -> ProbeAnswer)

  /** What the call does to its caller: it returns a report, or raises that the lock is held. */
  datatype Report = Returned(result: Result) | HeldError(heldBy: map<string, string>)

  const PROBE_INTERVAL := 1.0

  function Others(project: string, reply: Reply): seq<string> {
    if reply.Answer? && reply.code == 0 then OtherRows(project, SplitLines(reply.output)) else []
  }

  /** The time from the first test of the waiting loop to its n-th: each round sleeps, and the others
      may delay it. */
  function Elapsed(probing: Schedule, n: nat): real {
    if n == 0 then 0.0 else Elapsed(probing, n - 1) + PROBE_INTERVAL + Delay(probing(n - 1))
  }

  /** How the wait ends after `n` probes that answered "unstable", when `room` is left at its first test:
      with the time up, or with the first other answer. */
  ghost predicate WaitEnds(probes: nat -> ProbeAnswer, probing: Schedule, room: real, n: nat, rc: int, result: Result) {
    && AskedBefore(probes, probing, room, n)
    && if Elapsed(probing, n) >= room then result == Finished(rc, false)
       else match probes(n)
         case Stable => result == Finished(rc, true)
         case ProbeError => result == Raised
         case Unstable => false
  }

  ghost predicate AskedBefore(probes: nat -> ProbeAnswer, probing: Schedule, room: real, n: nat) {
    forall m: nat | m < n :: AsksOn(probes, probing, room, m)
  }

  lemma AskedOnce(probes: nat -> ProbeAnswer, probing: Schedule, room: real, n: nat)
    requires AskedBefore(probes, probing, room, n) && Elapsed(probing, n) < room && probes(n).Unstable?
    ensures AskedBefore(probes, probing, room, n + 1)
  {
    assert AsksOn(probes, probing, room, n);
  }

  predicate AsksOn(probes: nat -> ProbeAnswer, probing: Schedule, room: real, m: nat) {
    Elapsed(probing, m) < room && probes(m).Unstable?
  }

  /** The answers and the delays determine the result and the number of probes. */
  lemma WaitUnique(probes: nat -> ProbeAnswer, probing: Schedule, room: real, rc: int, n: nat, result: Result, n': nat, result': Result)
    requires WaitEnds(probes, probing, room, n, rc, result) && WaitEnds(probes, probing, room, n', rc, result')
    ensures n == n' && result == result'
  {
    assert !AsksOn(probes, probing, room, n) && !AsksOn(probes, probing, room, n');
  }

  /** An unstable end means that the time is up and that every answer so far was "unstable"; at least one
      was given whenever the first test was in time. */
  lemma UnstableWasAsked(probes: nat -> ProbeAnswer, probing: Schedule, room: real, n: nat, rc: int)
    requires WaitEnds(probes, probing, room, n, rc, Finished(rc, false))
    ensures Elapsed(probing, n) >= room && forall m: nat | m < n :: probes(m).Unstable?
    ensures room > 0.0 ==> n >= 1 && probes(0).Unstable?
  {
    forall m: nat | m < n
      ensures probes(m).Unstable?
    {
      assert AsksOn(probes, probing, room, m);
    }
  }

  // ----- the host during a call

  /** A sleep and a probe. */
  function Asked(s: State, id: nat, answer: ProbeAnswer, schedule: seq<Step>): State {
    Did(After(s, Tick(PROBE_INTERVAL), id, schedule), Own(id, if answer.ProbeError? then ProbeRaised else Probed(answer.Stable?)))
  }

  /** The host after some probes that answered "unstable". */
  function AskedAt(s: State, id: nat, probing: Schedule, n: nat): State {
    if n == 0 then s else Asked(AskedAt(s, id, probing, n - 1), id, Unstable, probing(n - 1))
  }

  /** The last round: a probe when there was time, and otherwise none. */
  function Last(s: State, id: nat, inTime: bool, answer: ProbeAnswer, schedule: seq<Step>): State {
    if inTime then Asked(s, id, answer, schedule) else Did(s, Own(id, ProbeExpired))
  }

  function AskedFrom(s: State, id: nat, probing: Schedule): nat -> State {
    (n: nat) => AskedAt(s, id, probing, n)
  }

  /** The host after systemctl has returned and its job has ended. */
  function Back(s: State, id: nat, rc: int, patience: real, schedule: seq<Step>): State {
    After(Did(s, JobEnds(id)), Own(id, SystemctlReturned(rc, patience)), id, schedule)
  }

  /** Who calls `restart`, and with what patience for readers and for PC/SC. */
  datatype Call = Call(id: nat, pid: nat, project: string, record: Items, wait: real, patience: real)

  /** What the outside answers to a call, and what the others do around its actions: after a try, while
      it waits for the next, on entering the lock, under the lock, and between probes. */
  datatype Around = Around(outside: Outside, tries: Schedule, waits: Schedule, after: Schedule, locked: Schedule, probing: Schedule)

  /** How a call that saw nobody under the lock ends, with which result and on which host: it has issued
      the restart, and waited for the daemon unless systemctl raised. */
  ghost predicate IssueEnds(s: State, call: Call, around: Around, result: Result, t: State) {
    var issued := After(s, Own(call.id, IssueRestart), call.id, around.locked(1));
    match around.outside.systemctl
    case None => result == Raised && t == After(issued, Own(call.id, SystemctlRaised), call.id, around.locked(2))
    case Some(rc) => WaitedEnds(Back(issued, call.id, rc, call.patience, around.locked(2)), call, around, rc, result, t)
  }

  ghost predicate WaitedEnds(s: State, call: Call, around: Around, rc: int, result: Result, t: State) {
    WaitedFrom(AskedFrom(s, call.id, around.probing), call.id, around, call.patience - Delay(around.locked(2)), rc, result, t)
  }

  ghost predicate WaitedFrom(asked: nat -> State, id: nat, around: Around, room: real, rc: int, result: Result, t: State) {
    exists n: nat :: ProbeEnds(asked, id, around.outside.probes, around.probing, room, n, rc, result, t)
  }

  /** How the part under the lock ends: denied late with exactly the rows seen, or with a restart. */
  ghost predicate LockedEnds(s: State, call: Call, around: Around, result: Result, t: State) {
    var late := Others(call.project, around.outside.under);
    var checked := After(s, Own(call.id, LateChecked(late)), call.id, around.locked(0));
    if late != [] then result == DeniedLate(late) && t == checked else IssueEnds(checked, call, around, result, t)
  }

  /** The host when a call begins to try the lock. */
  function Begun(s: State, call: Call, early: seq<string>): State {
    Did(Did(s, StartRestart(call.id, call.pid, call.record)), Own(call.id, PreChecked(early, call.wait)))
  }

  /** How the whole call ends: denied early with exactly the rows seen; or refused the lock, exactly when
      the acquire loop ends so; or with what the part under the lock ends with, and the lock released. */
  ghost predicate RestartEnds(s: State, call: Call, around: Around, report: Report, t: State) {
    var early := Others(call.project, around.outside.before);
    if early != [] then report == Returned(Denied(early)) && t == Begun(s, call, early)
    else TryingEnds(TriesFrom(Begun(s, call, early), call.id, around.tries, around.waits), call, around, report, t)
  }

  ghost predicate TryingEnds(tried: nat -> State, call: Call, around: Around, report: Report, t: State) {
    exists n: nat, u: State, heldBy: Option<map<string, string>> ::
      && AcquireEnds(tried, call.id, around.tries, around.after, n, u, heldBy)
      && if heldBy.Some? then report == HeldError(heldBy.value) && t == u else HoldingEnds(u, call, around, report, t)
  }

  ghost predicate HoldingEnds(s: State, call: Call, around: Around, report: Report, t: State) {
    exists result: Result, u: State ::
      LockedEnds(s, call, around, result, u) && report == Returned(result) && t == Freed(u, call.id, [])
  }

  lemma LockedUnique(s: State, call: Call, around: Around, result: Result, t: State, result': Result, t': State)
    requires LockedEnds(s, call, around, result, t) && LockedEnds(s, call, around, result', t')
    ensures result == result' && t == t'
  {
    var outside := around.outside;
    if Others(call.project, outside.under) == [] && outside.systemctl.Some? {
      var checked := After(s, Own(call.id, LateChecked([])), call.id, around.locked(0));
      var issued := After(checked, Own(call.id, IssueRestart), call.id, around.locked(1));
      var back := Back(issued, call.id, outside.systemctl.value, call.patience, around.locked(2));
      WaitedUnique(AskedFrom(back, call.id, around.probing), call.id, around, call.patience - Delay(around.locked(2)),
                   outside.systemctl.value, result, t, result', t');
    }
  }

  lemma WaitedUnique(asked: nat -> State, id: nat, around: Around, room: real, rc: int, result: Result, t: State, result': Result, t': State)
    requires WaitedFrom(asked, id, around, room, rc, result, t) && WaitedFrom(asked, id, around, room, rc, result', t')
    ensures result == result' && t == t'
  {
    var (probes, probing) := (around.outside.probes, around.probing);
    var n: nat :| ProbeEnds(asked, id, probes, probing, room, n, rc, result, t);
    var n': nat :| ProbeEnds(asked, id, probes, probing, room, n', rc, result', t');
    WaitUnique(probes, probing, room, rc, n, result, n', result');
  }

  /** The host at the start, what the outside answers and what the others do determine the report and the
      whole host at the end. */
  lemma RestartUnique(s: State, call: Call, around: Around, report: Report, t: State, report': Report, t': State)
    requires RestartEnds(s, call, around, report, t) && RestartEnds(s, call, around, report', t')
    ensures report == report' && t == t'
  {
    var early := Others(call.project, around.outside.before);
    if early == [] {
      TryingUnique(TriesFrom(Begun(s, call, early), call.id, around.tries, around.waits), call, around, report, t, report', t');
    }
  }

  lemma TryingUnique(tried: nat -> State, call: Call, around: Around, report: Report, t: State, report': Report, t': State)
    requires TryingEnds(tried, call, around, report, t) && TryingEnds(tried, call, around, report', t')
    ensures report == report' && t == t'
  {
    var n: nat, u: State, heldBy: Option<map<string, string>> :|
      && AcquireEnds(tried, call.id, around.tries, around.after, n, u, heldBy)
      && if heldBy.Some? then report == HeldError(heldBy.value) && t == u else HoldingEnds(u, call, around, report, t);
    var n': nat, u': State, heldBy': Option<map<string, string>> :|
      && AcquireEnds(tried, call.id, around.tries, around.after, n', u', heldBy')
      && if heldBy'.Some? then report' == HeldError(heldBy'.value) && t' == u' else HoldingEnds(u', call, around, report', t');
    AcquireUnique(tried, call.id, around.tries, around.after, n, u, heldBy, n', u', heldBy');
    if heldBy == None {
      var result: Result, v: State :| LockedEnds(u, call, around, result, v) && report == Returned(result) && t == Freed(v, call.id, []);
      var result': Result, v': State :| LockedEnds(u, call, around, result', v') && report' == Returned(result') && t' == Freed(v', call.id, []);
      LockedUnique(u, call, around, result, v, result', v');
    }
  }

  /** A call reports that the lock is held if and only if no other lane was seen at first and none of its
      tries, up to the first at or past its deadline, found the lock free. */
  lemma HeldExactly(s: State, call: Call, around: Around, report: Report, t: State)
    requires RestartEnds(s, call, around, report, t)
    ensures report.HeldError? <==>
              && Others(call.project, around.outside.before) == []
              && exists n: nat :: NoneFree(TriesFrom(Begun(s, call, []), call.id, around.tries, around.waits), call.id, around.tries, n)
  {
    if Others(call.project, around.outside.before) == [] {
      TryingHeld(TriesFrom(Begun(s, call, []), call.id, around.tries, around.waits), call, around, report, t);
    }
  }

  /** No try up to the n-th found the lock free, and the n-th was the first at or past the deadline. */
  ghost predicate NoneFree(tried: nat -> State, id: nat, tries: Schedule, n: nat) {
    && (forall m: nat | m <= n :: !Free(tried(m), id))
    && (forall m: nat | m < n :: InTime(Refusal(tried(m), id, tries(m)), id))
    && !InTime(Refusal(tried(n), id, tries(n)), id)
  }

  lemma TryingHeld(tried: nat -> State, call: Call, around: Around, report: Report, t: State)
    requires TryingEnds(tried, call, around, report, t)
    ensures report.HeldError? <==> exists n: nat :: NoneFree(tried, call.id, around.tries, n)
  {
    var (id, tries) := (call.id, around.tries);
    var n: nat, u: State, heldBy: Option<map<string, string>> :|
      && AcquireEnds(tried, id, tries, around.after, n, u, heldBy)
      && if heldBy.Some? then report == HeldError(heldBy.value) && t == u else HoldingEnds(u, call, around, report, t);
    RefusedExactly(tried, id, tries, around.after, n, u, heldBy);
    if heldBy.Some? {
      assert NoneFree(tried, id, tries, n);
    }
  }

  // ----- the call

  /** How the wait ends at its n-th test, `asked` being the host at each test: the result, and the host
      then. */
  ghost predicate ProbeEnds(asked: nat -> State, id: nat, probes: nat -> ProbeAnswer, probing: Schedule, room: real, n: nat,
                            rc: int, result: Result, t: State) {
    && WaitEnds(probes, probing, room, n, rc, result)
    && t == Last(asked(n), id, Elapsed(probing, n) < room, probes(n), probing(n))
  }

  ghost predicate Unrolls(asked: nat -> State, id: nat, probing: Schedule) {
    forall n: nat :: UnrollsAt(asked, id, probing, n)
  }

  predicate UnrollsAt(asked: nat -> State, id: nat, probing: Schedule, n: nat) {
    asked(n + 1) == Asked(asked(n), id, Unstable, probing(n))
  }

  /** One sleep and one probe. */
  method Ask(host: Host, id: nat, answer: ProbeAnswer, schedule: seq<Step>, ghost before: State)
    requires Leads(before, host.s) && id in host.s.actors && host.s.actors[id].pc.Probing?
    modifies host
    ensures host.s == Asked(old(host.s), id, answer, schedule)
    ensures Leads(before, host.s) && id in host.s.actors
    ensures host.s.now == old(host.s.now) + PROBE_INTERVAL + Delay(schedule)
    ensures var a := old(host.s.actors[id]);
            host.s.actors[id] == match answer
                                 case Stable => a.(pc := Leaving(Finished(a.pc.rc, true)))
                                 case ProbeError => a.(pc := Leaving(Raised))
                                 case Unstable => a
  {
    ghost var s0 := host.s;
    host.Sleep(id, PROBE_INTERVAL, schedule);
    LeadsThrough(before, s0, host.s);
    ghost var s1 := host.s;
    host.Perform(Own(id, if answer.ProbeError? then ProbeRaised else Probed(answer.Stable?)));
    LeadsThrough(before, s1, host.s);
  }

  /** One round of the loop, at its n-th test. */
  method Round(host: Host, id: nat, probes: nat -> ProbeAnswer, probing: Schedule, n: nat,
               ghost asked: nat -> State, ghost room: real, ghost before: State) returns (again: bool)
    requires Leads(before, host.s) && id in host.s.actors && host.s.actors[id].pc.Probing?
    requires host.s == asked(n) && Unrolls(asked, id, probing)
    requires AskedBefore(probes, probing, room, n) && Elapsed(probing, n) < room
    modifies host
    ensures Leads(before, host.s) && id in host.s.actors
    ensures again ==> host.s == asked(n + 1) && AskedBefore(probes, probing, room, n + 1) && host.s.actors[id] == old(host.s.actors[id])
    ensures again ==> host.s.now - old(host.s.now) == Elapsed(probing, n + 1) - Elapsed(probing, n) >= PROBE_INTERVAL
    ensures var (a, b) := (old(host.s.actors[id]), host.s.actors[id]);
            !again ==> b == a.(pc := b.pc) && b.pc.Leaving? && ProbeEnds(asked, id, probes, probing, room, n, a.pc.rc, b.pc.result, host.s)
  {
    Ask(host, id, probes(n), probing(n), before);
    assert UnrollsAt(asked, id, probing, n);
    again := probes(n).Unstable?;
    if again {
      AskedOnce(probes, probing, room, n);
    }
  }

  /** The deadline has passed at the n-th test. */
  method Expire(host: Host, id: nat, ghost probes: nat -> ProbeAnswer, ghost probing: Schedule, ghost n: nat,
                ghost asked: nat -> State, ghost room: real, ghost before: State)
    requires Leads(before, host.s) && id in host.s.actors && host.s.actors[id].pc.Probing? && host.s.actors[id].pc.until <= host.s.now
    requires host.s == asked(n) && AskedBefore(probes, probing, room, n) && Elapsed(probing, n) >= room
    modifies host
    ensures Leads(before, host.s) && id in host.s.actors
    ensures var (a, b) := (old(host.s.actors[id]), host.s.actors[id]);
            b == a.(pc := b.pc) && b.pc.Leaving? && ProbeEnds(asked, id, probes, probing, room, n, a.pc.rc, b.pc.result, host.s)
  {
    ghost var s0 := host.s;
    host.Perform(Own(id, ProbeExpired));
    LeadsThrough(before, s0, host.s);
  }

  /** Waits for PC/SC until it answers, raises, or the deadline passes; `asked` is the host at each test. */
  method ProbeLoop(host: Host, id: nat, probes: nat -> ProbeAnswer, probing: Schedule, ghost asked: nat -> State, ghost room: real) returns (n: nat)
    requires id in host.s.actors && host.s.actors[id].pc.Probing? && room == host.s.actors[id].pc.until - host.s.now
    requires host.s == asked(0) && Unrolls(asked, id, probing)
    modifies host
    ensures Leads(old(host.s), host.s) && id in host.s.actors && host.s.actors[id].pc.Leaving?
    ensures host.s.actors[id].(pc := old(host.s.actors[id].pc)) == old(host.s.actors[id])
    ensures ProbeEnds(asked, id, probes, probing, room, n, old(host.s.actors[id].pc.rc), host.s.actors[id].pc.result, host.s)
  {
    ghost var s0 := host.s;
    var until := host.s.actors[id].pc.until;
    n := 0;
    LeadsSelf(s0);
    while host.s.now < until
      invariant Leads(s0, host.s) && host.s == asked(n) && id in host.s.actors && host.s.actors[id] == s0.actors[id]
      invariant host.s.now == s0.now + Elapsed(probing, n)
      invariant AskedBefore(probes, probing, room, n)
      decreases (until - host.s.now).Floor + 1
    {
      var again := Round(host, id, probes, probing, n, asked, room, s0);
      if !again {
        return;
      }
      n := n + 1;
    }
    Expire(host, id, probes, probing, n, asked, room, s0);
  }

  /** The wait for PC/SC. */
  method Probe(host: Host, id: nat, probes: nat -> ProbeAnswer, probing: Schedule) returns (n: nat)
    requires id in host.s.actors && host.s.actors[id].pc.Probing?
    modifies host
    ensures Leads(old(host.s), host.s) && id in host.s.actors && host.s.actors[id].pc.Leaving?
    ensures host.s.actors[id].(pc := old(host.s.actors[id].pc)) == old(host.s.actors[id])
    ensures var pc := old(host.s.actors[id].pc);
            ProbeEnds(AskedFrom(old(host.s), id, probing), id, probes, probing, pc.until - old(host.s.now), n,
                      pc.rc, host.s.actors[id].pc.result, host.s)
  {
    AskedUnrolls(host.s, id, probing);
    n := ProbeLoop(host, id, probes, probing, AskedFrom(host.s, id, probing), host.s.actors[id].pc.until - host.s.now);
  }

  lemma AskedUnrolls(s: State, id: nat, probing: Schedule)
    ensures Unrolls(AskedFrom(s, id, probing), id, probing) && AskedFrom(s, id, probing)(0) == s
  {
  }

  /** Issues the restart and waits for the daemon. */
  method IssueAndWait(host: Host, call: Call, around: Around)
    requires call.id in host.s.actors && host.s.actors[call.id].pc == Cleared
    modifies host
    ensures Leads(old(host.s), host.s) && call.id in host.s.actors && host.s.actors[call.id].pc.Leaving?
    ensures host.s.actors[call.id].program == old(host.s.actors[call.id].program)
    ensures IssueEnds(old(host.s), call, around, host.s.actors[call.id].pc.result, host.s)
  {
    var id := call.id;
    ghost var s0 := host.s;
    host.Act(id, IssueRestart, around.locked(1));
    ghost var s1 := host.s;
    if around.outside.systemctl == None {
      host.Act(id, SystemctlRaised, around.locked(2));
      LeadsThrough(s0, s1, host.s);
      return;
    }
    AwaitDaemon(host, call, around, around.outside.systemctl.value);
    LeadsThrough(s0, s1, host.s);
  }

  /** Systemctl returns, and PC/SC is probed. */
  method AwaitDaemon(host: Host, call: Call, around: Around, rc: int)
    requires call.id in host.s.actors && host.s.actors[call.id].pc.Restarting?
    modifies host
    ensures Leads(old(host.s), host.s) && call.id in host.s.actors && host.s.actors[call.id].pc.Leaving?
    ensures host.s.actors[call.id].program == old(host.s.actors[call.id].program)
    ensures WaitedEnds(Back(old(host.s), call.id, rc, call.patience, around.locked(2)), call, around, rc, host.s.actors[call.id].pc.result, host.s)
  {
    ghost var s0 := host.s;
    Return(host, call.id, rc, call.patience, around.locked(2));
    ghost var s1 := host.s;
    assert s1.actors[call.id].pc.until - s1.now == call.patience - Delay(around.locked(2));
    var n := Probe(host, call.id, around.outside.probes, around.probing);
    LeadsThrough(s0, s1, host.s);
  }

  /** Systemctl returns when the job it waits for has ended. */
  method Return(host: Host, id: nat, rc: int, patience: real, schedule: seq<Step>)
    requires id in host.s.actors && host.s.actors[id].pc.Restarting?
    modifies host
    ensures host.s == Back(old(host.s), id, rc, patience, schedule) && Leads(old(host.s), host.s)
    ensures id in host.s.actors && host.s.actors[id] == old(host.s.actors[id]).(pc := Probing(rc, old(host.s.now) + patience))
    ensures host.s.now == old(host.s.now) + Delay(schedule)
  {
    ghost var s0 := host.s;
    LeadsSelf(s0);
    if id in host.s.jobs {
      host.Perform(JobEnds(id));
    }
    ghost var s1 := host.s;
    host.Act(id, SystemctlReturned(rc, patience), schedule);
    LeadsThrough(s0, s1, host.s);
  }

  /** The body of `restart` under the lock, up to the `finally` clause that releases it. */
  method UnderLock(host: Host, call: Call, around: Around)
    requires call.id in host.s.actors && host.s.actors[call.id].pc == Held && host.s.actors[call.id].program == Restart
    modifies host
    ensures Leads(old(host.s), host.s) && call.id in host.s.actors && host.s.actors[call.id].pc.Leaving?
    ensures host.s.actors[call.id].program == Restart
    ensures LockedEnds(old(host.s), call, around, host.s.actors[call.id].pc.result, host.s)
  {
    ghost var s0 := host.s;
    var late := OtherHolders(call.project, around.outside.under);
    host.Act(call.id, LateChecked(late), around.locked(0));
    if late == [] {
      ghost var s1 := host.s;
      IssueAndWait(host, call, around);
      LeadsThrough(s0, s1, host.s);
    }
  }

  /** The first check, and the opening of the lock file when it saw nobody. */
  method Begin(host: Host, call: Call, around: Around) returns (early: seq<string>)
    requires call.id !in host.s.actors
    modifies host
    ensures early == Others(call.project, around.outside.before)
    ensures host.s == Begun(old(host.s), call, early) && Leads(old(host.s), host.s)
    ensures call.id in host.s.actors && host.s.actors[call.id].program == Restart
    ensures var pc := host.s.actors[call.id].pc;
            if early != [] then pc == Done(Denied(early)) else pc.Polling? && pc.wake <= host.s.now
  {
    ghost var s0 := host.s;
    host.Perform(StartRestart(call.id, call.pid, call.record));
    ghost var s1 := host.s;
    early := OtherHolders(call.project, around.outside.before);
    host.Perform(Own(call.id, PreChecked(early, call.wait)));
    LeadsThrough(s0, s1, host.s);
  }

  /** The `try` statement of a call that holds the lock: whatever happens under it, it is released. */
  method HoldAndRelease(host: Host, call: Call, around: Around, lock: PcscdDomainLock) returns (report: Report)
    requires lock.fd == call.id
    requires call.id in host.s.actors && host.s.actors[call.id].pc == Held && host.s.actors[call.id].program == Restart
    modifies host, lock
    ensures Leads(old(host.s), host.s) && call.id in host.s.actors && host.s.actors[call.id].program == Restart
    ensures report.Returned? && host.s.actors[call.id].pc == Done(report.result)
    ensures HoldingEnds(old(host.s), call, around, report, host.s)
  {
    ghost var s0 := host.s;
    UnderLock(host, call, around);
    report := Returned(host.s.actors[call.id].pc.result);
    ghost var s1 := host.s;
    lock.Release(host, []);
    LeadsThrough(s0, s1, host.s);
  }

  /** The whole call. Whatever happens it ends with the lock not held: refused, denied before or
      under the lock, finished, or raising. */
  method RestartPcscd(host: Host, call: Call, around: Around) returns (report: Report)
    requires call.id !in host.s.actors
    modifies host
    ensures RestartEnds(old(host.s), call, around, report, host.s)
    ensures Leads(old(host.s), host.s) && call.id in host.s.actors
    ensures host.s.actors[call.id].pc == if report.Returned? then Done(report.result) else Failed(report.heldBy)
    ensures host.s.actors[call.id].program == Restart
    ensures Reachable(old(host.s)) ==> call.id !in host.s.flocks && Orderly(host.s.actors[call.id])
  {
    ghost var s0 := host.s;
    var early := Begin(host, call, around);
    if early != [] {
      Settled(s0, host.s, call.id);
      return Returned(Denied(early));
    }
    report := Trying(host, call, around, s0);
    Settled(s0, host.s, call.id);
  }

  /** The rest of a call that saw nobody at first. */
  method Trying(host: Host, call: Call, around: Around, ghost before: State) returns (report: Report)
    requires Leads(before, host.s) && call.id in host.s.actors && host.s.actors[call.id].program == Restart
    requires host.s.actors[call.id].pc.Polling? && host.s.actors[call.id].pc.wake <= host.s.now
    modifies host
    ensures Leads(before, host.s) && call.id in host.s.actors && host.s.actors[call.id].program == Restart
    ensures host.s.actors[call.id].pc == if report.Returned? then Done(report.result) else Failed(report.heldBy)
    ensures TryingEnds(TriesFrom(old(host.s), call.id, around.tries, around.waits), call, around, report, host.s)
  {
    ghost var s0 := host.s;
    var lock, heldBy, n := Acquire(host, call.id, around.tries, around.waits, around.after);
    LeadsThrough(before, s0, host.s);
    if lock == null {
      return HeldError(heldBy);
    }
    ghost var s1 := host.s;
    report := HoldAndRelease(host, call, around, lock);
    LeadsThrough(before, s1, host.s);
  }

  /** An actor that has returned holds nothing and has an orderly history. */
  lemma Settled(s0: State, s: State, id: nat)
    requires Leads(s0, s) && id in s.actors && (s.actors[id].pc.Done? || s.actors[id].pc.Failed?)
    ensures Reachable(s0) ==> id !in s.flocks && Orderly(s.actors[id])
  {
    if Reachable(s0) {
      LeadsReachable(s0, s);
      ReachableInv(s);
      EveryCourseIsOrderly(s, id);
    }
  }

  /** The exit code of `pcscd-ctl restart`; an exception that nobody catches exits with 1. */
  function ExitCode(report: Report): int {
    match report
    case HeldError(_) => 3
    case Returned(result) =>
      match result {
        case Finished(rc, stable) => if !stable then 2 else if rc != 0 then 4 else 0
        case Raised => 1
        case _ => 2
      }
  }

  /** Exit 0 means that this very call restarted pcscd under the lock and then saw it answer. Exit 2
      is shared: an unstable daemon, and every denial, for which nothing was restarted or probed. */
  lemma ExitCodeMeaning(s: State, id: nat, result: Result)
    requires Reachable(s) && id in s.actors && s.actors[id].program == Restart && s.actors[id].pc == Done(result)
    ensures ExitCode(Returned(result)) == 0 <==> result == Finished(0, true)
    ensures ExitCode(Returned(result)) in {0, 4} ==>
              [Acquired, CheckedUnderLock([]), RestartIssued] <= s.actors[id].history && result.stable
    ensures ExitCode(Returned(result)) == 2 ==>
              (RestartIssued in s.actors[id].history <==> result.Finished?)
    ensures result.Denied? || result.DeniedLate? ==> ExitCode(Returned(result)) == 2 && RestartIssued !in s.actors[id].history
  {
    EveryCourseIsOrderly(s, id);
    ReachableInv(s);
  }
}
