/** The acquire, release and restart programs as they run on a host, with everybody else acting
    between any two of their actions. Whatever they do is a run of the protocol (`Leads`), so all
    that is proved of runs holds of them. */
module PcscdHost {
  import opened Options
  import opened HolderRecord
  import opened PcscdDomain
  import opened PcscdSafety

  ghost predicate Leads(s: State, t: State) {
    exists steps: seq<Step> :: CanRun(s, steps) && Exec(s, steps) == t
  }

  lemma LeadsStep(s: State, t: State, step: Step)
    requires Leads(s, t) && Enabled(t, step)
    ensures Leads(s, Apply(t, step))
  {
    var steps: seq<Step> :| CanRun(s, steps) && Exec(s, steps) == t;
    assert CanRun(Apply(t, step), []);
    assert CanRun(t, [step]) && Exec(t, [step]) == Apply(t, step);
    RunAppend(s, steps, [step]);
  }

  lemma LeadsSelf(s: State)
    ensures Leads(s, s)
  {
    assert CanRun(s, []) && Exec(s, []) == s;
  }

  lemma LeadsThrough(s: State, t: State, u: State)
    requires Leads(s, t) && Leads(t, u)
    ensures Leads(s, u)
  {
    var a: seq<Step> :| CanRun(s, a) && Exec(s, a) == t;
    var b: seq<Step> :| CanRun(t, b) && Exec(t, b) == u;
    RunAppend(s, a, b);
  }

  /** A host whose state is reachable stays so under everything the programs do. */
  lemma LeadsReachable(s: State, t: State)
    requires Reachable(s) && Leads(s, t)
    ensures Reachable(t)
  {
    var s0: State, a: seq<Step> :| Init(s0) && CanRun(s0, a) && Exec(s0, a) == s;
    var b: seq<Step> :| CanRun(s, b) && Exec(s, b) == t;
    RunAppend(s0, a, b);
  }

  /** Steps that other actors, `systemd` and the clock can take beside actor `me`. */
  predicate Foreign(s: State, step: Step, me: nat) {
    match step
    case Own(id, _) => id != me
    case Crash(pid) => me in s.actors ==> s.actors[me].pid != pid
    case _ => true
  }

  lemma ForeignKeeps(s: State, step: Step, me: nat)
    requires me in s.actors && Enabled(s, step) && Foreign(s, step, me)
    ensures var t := Apply(s, step); me in t.actors && t.actors[me] == s.actors[me] && t.now == s.now + Passed(step)
  {
  }

  /** The time that passes in a step; the clock never goes back. */
  function Passed(step: Step): real {
    if step.Tick? && step.dt >= 0.0 then step.dt else 0.0
  }

  /** The time that passes while the others follow a schedule. */
  function Delay(schedule: seq<Step>): (d: real)
    ensures d >= 0.0
  {
    if schedule == [] then 0.0 else Delay(schedule[..|schedule| - 1]) + Passed(schedule[|schedule| - 1])
  }

  /** A step, if it can happen. */
  function Did(s: State, step: Step): State {
    if Enabled(s, step) then Apply(s, step) else s
  }

  /** Everybody else follows a schedule as far as it can be followed. */
  function Follow(s: State, me: nat, schedule: seq<Step>): State {
    if schedule == [] then s
    else
      var t := Follow(s, me, schedule[..|schedule| - 1]);
      var step := schedule[|schedule| - 1];
      if Enabled(t, step) && Foreign(t, step, me) then Apply(t, step) else t
  }

  /** A step of actor `me`, or of the clock while it sleeps, and then what the others do. */
  function After(s: State, step: Step, me: nat, schedule: seq<Step>): State {
    Follow(Did(s, step), me, schedule)
  }

  /** What the others do after the n-th action of some kind. */
  type Schedule = nat -> seq<Step>

  /** One bench host: kernel, lock file, processes. */
  class Host {
    var s: State

    constructor (s: State)
      ensures this.s == s
    {
      this.s := s;
    }

    method Perform(step: Step)
      requires Enabled(s, step)
      modifies this
      ensures s == Apply(old(s), step) && s == Did(old(s), step) && Leads(old(s), s)
    {
      LeadsSelf(s);
      LeadsStep(s, s, step);
      s := Apply(s, step);
    }

    /** Everybody else follows the schedule as far as it can be followed. */
    method Others(me: nat, schedule: seq<Step>)
      requires me in s.actors
      modifies this
      ensures s == Follow(old(s), me, schedule) && Leads(old(s), s)
      ensures me in s.actors && s.actors[me] == old(s.actors[me]) && s.now == old(s.now) + Delay(schedule)
    {
      LeadsSelf(s);
      for i := 0 to |schedule|
        invariant s == Follow(old(s), me, schedule[..i]) && Leads(old(s), s)
        invariant me in s.actors && s.actors[me] == old(s.actors[me]) && s.now == old(s.now) + Delay(schedule[..i])
      {
        assert schedule[..i + 1][..i] == schedule[..i];
        var step := schedule[i];
        if Enabled(s, step) && Foreign(s, step, me) {
          ForeignKeeps(s, step, me);
          LeadsStep(old(s), s, step);
          s := Apply(s, step);
        }
      }
      assert schedule[..|schedule|] == schedule;
    }

    /** One move of actor `me`, then the others. */
    method Act(me: nat, move: Move, schedule: seq<Step>)
      requires Enabled(s, Own(me, move))
      modifies this
      ensures s == After(old(s), Own(me, move), me, schedule) && Leads(old(s), s)
      ensures me in s.actors && s.actors[me] == Advance(old(s.actors[me]), old(s.now), old(s.file), move)
      ensures s.now == old(s.now) + Delay(schedule)
    {
      ghost var before := s;
      Perform(Own(me, move));
      ghost var after := s;
      Others(me, schedule);
      LeadsThrough(before, after, s);
    }

    /** `time.sleep` of the given length, during which the others act. */
    method Sleep(me: nat, length: real, schedule: seq<Step>)
      requires me in s.actors && length >= 0.0
      modifies this
      ensures s == After(old(s), Tick(length), me, schedule) && Leads(old(s), s)
      ensures me in s.actors && s.actors[me] == old(s.actors[me]) && s.now == old(s.now) + length + Delay(schedule)
    {
      ghost var before := s;
      Perform(Tick(length));
      ghost var after := s;
      Others(me, schedule);
      LeadsThrough(before, after, s);
    }
  }

  /** A held lock; `fd` is -1 once released. */
  class PcscdDomainLock {
    var fd: int

    constructor (id: nat)
      ensures fd == id
    {
      fd := id;
    }

    /** Unlocks and closes once; a second release does nothing. */
    method Release(host: Host, schedule: seq<Step>)
      requires fd >= 0 ==> fd in host.s.actors && host.s.actors[fd].pc.Leaving?
      modifies this, host
      ensures Leads(old(host.s), host.s)
      ensures old(fd) < 0 ==> fd == old(fd) && host.s == old(host.s)
      ensures old(fd) >= 0 ==> fd == -1 && old(fd) in host.s.actors
      ensures old(fd) >= 0 ==> host.s.actors[old(fd)] == Log(old(host.s.actors[fd]), Released, Done(old(host.s.actors[fd].pc.result)))
      ensures old(fd) >= 0 ==> host.s == Freed(old(host.s), old(fd), schedule)
    {
      LeadsSelf(host.s);
      if fd >= 0 {
        host.Act(fd, Unlock, schedule);
        ghost var unlocked := host.s;
        host.Perform(Own(fd, Close));
        LeadsThrough(old(host.s), unlocked, host.s);
        fd := -1;
      }
    }
  }

  function Freed(s: State, id: nat, schedule: seq<Step>): State {
    Did(After(s, Own(id, Unlock), id, schedule), Own(id, Close))
  }

  // ----- the acquire loop

  function Refusal(s: State, id: nat, schedule: seq<Step>): State {
    After(s, Own(id, Refuse), id, schedule)
  }

  /** The sleep after a refused try. */
  function Pause(s: State, id: nat, schedule: seq<Step>): State {
    After(Did(s, Own(id, PcscdDomain.Backoff)), Tick(POLL_INTERVAL), id, schedule)
  }

  /** The host at the n-th try, when all tries before were refused: `tries` and `waits` are what the
      others do after a try and during the sleep. */
  function TryAt(s: State, id: nat, tries: Schedule, waits: Schedule, n: nat): State {
    if n == 0 then s else Pause(Refusal(TryAt(s, id, tries, waits, n - 1), id, tries(n - 1)), id, waits(n - 1))
  }

  function TriesFrom(s: State, id: nat, tries: Schedule, waits: Schedule): nat -> State {
    (n: nat) => TryAt(s, id, tries, waits, n)
  }

  /** The flock is free for the actor. */
  predicate Free(s: State, id: nat) {
    id in s.actors && Compatible(s.flocks, ModeOf(s.actors[id].program))
  }

  predicate InTime(s: State, id: nat) {
    id in s.actors && s.now < s.actors[id].deadline
  }

  /** The n-th try is refused, and there is time for another. */
  predicate TriesOn(tried: nat -> State, id: nat, tries: Schedule, n: nat) {
    !Free(tried(n), id) && InTime(Refusal(tried(n), id, tries(n)), id)
  }

  /** Giving up: the file closed, its record read. */
  function GivenUp(s: State, id: nat, schedule: seq<Step>): State {
    Did(After(s, Own(id, GiveUp), id, schedule), Own(id, ReadFile))
  }

  /** From the granted flock to the return of the acquire function. */
  function Entered(s: State, id: nat, after: Schedule): State {
    if id in s.actors && ModeOf(s.actors[id].program) == Exclusive
    then After(After(s, Own(id, Truncate), id, after(0)), Own(id, WriteRecord), id, after(1))
    else After(s, Own(id, EnterShared), id, after(0))
  }

  /** How the acquire loop ends, at the n-th try, and the host then: every try before was refused with
      time left; this one found the flock free, or was refused at or past the deadline. */
  ghost predicate AcquireEnds(tried: nat -> State, id: nat, tries: Schedule, after: Schedule, n: nat, t: State, heldBy: Option<map<string, string>>) {
    RefusedBefore(tried, id, tries, n) && EndsAt(tried(n), id, tries(n), after, t, heldBy)
  }

  ghost predicate RefusedBefore(tried: nat -> State, id: nat, tries: Schedule, n: nat) {
    forall m: nat | m < n :: TriesOn(tried, id, tries, m)
  }

  lemma RefusedOnce(tried: nat -> State, id: nat, tries: Schedule, n: nat)
    requires RefusedBefore(tried, id, tries, n) && TriesOn(tried, id, tries, n)
    ensures RefusedBefore(tried, id, tries, n + 1)
  {
  }

  /** The last try, on host `s`. */
  predicate EndsAt(s: State, id: nat, schedule: seq<Step>, after: Schedule, t: State, heldBy: Option<map<string, string>>) {
    if Free(s, id) then heldBy == None && t == Entered(After(s, Own(id, Grant), id, schedule), id, after)
    else
      var refused := Refusal(s, id, schedule);
      && !InTime(refused, id)
      && t == GivenUp(refused, id, after(0))
      && heldBy == Some(Parse(After(refused, Own(id, GiveUp), id, after(0)).file))
  }

  /** The host and the schedules determine how it ends. */
  lemma AcquireUnique(tried: nat -> State, id: nat, tries: Schedule, after: Schedule, n: nat, t: State, heldBy: Option<map<string, string>>,
                      n': nat, t': State, heldBy': Option<map<string, string>>)
    requires AcquireEnds(tried, id, tries, after, n, t, heldBy) && AcquireEnds(tried, id, tries, after, n', t', heldBy')
    ensures n == n' && t == t' && heldBy == heldBy'
  {
    assert !TriesOn(tried, id, tries, n) && !TriesOn(tried, id, tries, n');
  }

  /** A refusal means that no try up to the first at or past the deadline found the flock free; the
      first try that does find it free, while there is time, is granted. */
  lemma RefusedExactly(tried: nat -> State, id: nat, tries: Schedule, after: Schedule, n: nat, t: State, heldBy: Option<map<string, string>>)
    requires AcquireEnds(tried, id, tries, after, n, t, heldBy)
    ensures heldBy.Some? <==> forall m: nat | m <= n :: !Free(tried(m), id)
    ensures forall m: nat | m < n :: InTime(Refusal(tried(m), id, tries(m)), id)
    ensures heldBy.Some? ==> !InTime(Refusal(tried(n), id, tries(n)), id)
  {
    forall m: nat | m < n
      ensures !Free(tried(m), id) && InTime(Refusal(tried(m), id, tries(m)), id)
    {
      assert TriesOn(tried, id, tries, m);
    }
  }

  ghost predicate Unrolls(tried: nat -> State, id: nat, tries: Schedule, waits: Schedule) {
    forall n: nat :: UnrollsAt(tried, id, tries, waits, n)
  }

  predicate UnrollsAt(tried: nat -> State, id: nat, tries: Schedule, waits: Schedule, n: nat) {
    tried(n + 1) == Pause(Refusal(tried(n), id, tries(n)), id, waits(n))
  }

  lemma TriesUnroll(s: State, id: nat, tries: Schedule, waits: Schedule)
    ensures Unrolls(TriesFrom(s, id, tries, waits), id, tries, waits) && TriesFrom(s, id, tries, waits)(0) == s
  {
  }

  /** One try of the flock. */
  method Try(host: Host, id: nat, schedule: seq<Step>, ghost before: State) returns (granted: bool)
    requires Leads(before, host.s) && id in host.s.actors && host.s.actors[id].pc.Polling? && host.s.actors[id].pc.wake <= host.s.now
    modifies host
    ensures granted == Free(old(host.s), id)
    ensures host.s == if granted then After(old(host.s), Own(id, Grant), id, schedule) else Refusal(old(host.s), id, schedule)
    ensures Leads(before, host.s) && id in host.s.actors && host.s.now >= old(host.s.now)
    ensures host.s.actors[id] == if granted then Log(old(host.s.actors[id]), Acquired, Granted) else old(host.s.actors[id]).(pc := Refused)
  {
    ghost var s0 := host.s;
    granted := Compatible(host.s.flocks, ModeOf(host.s.actors[id].program));
    if granted {
      host.Act(id, Grant, schedule);
    } else {
      host.Act(id, Refuse, schedule);
    }
    LeadsThrough(before, s0, host.s);
  }

  /** The sleep between two tries. */
  method Wait(host: Host, id: nat, schedule: seq<Step>, ghost before: State)
    requires Leads(before, host.s) && id in host.s.actors && host.s.actors[id].pc.Refused? && InTime(host.s, id)
    modifies host
    ensures host.s == Pause(old(host.s), id, schedule)
    ensures Leads(before, host.s) && id in host.s.actors && host.s.now >= old(host.s.now) + POLL_INTERVAL
    ensures host.s.actors[id].pc.Polling? && host.s.actors[id].pc.wake <= host.s.now
    ensures host.s.actors[id] == old(host.s.actors[id]).(pc := host.s.actors[id].pc)
  {
    ghost var s0 := host.s;
    host.Perform(Own(id, PcscdDomain.Backoff));
    LeadsThrough(before, s0, host.s);
    ghost var s1 := host.s;
    host.Sleep(id, POLL_INTERVAL, schedule);
    LeadsThrough(before, s1, host.s);
  }

  /** The deadline has passed: close the file and read who holds the lock. */
  method GiveUpAndRead(host: Host, id: nat, schedule: seq<Step>, ghost before: State) returns (heldBy: map<string, string>)
    requires Leads(before, host.s) && id in host.s.actors && host.s.actors[id].pc.Refused? && !InTime(host.s, id)
    modifies host
    ensures host.s == GivenUp(old(host.s), id, schedule)
    ensures heldBy == Parse(After(old(host.s), Own(id, GiveUp), id, schedule).file)
    ensures Leads(before, host.s) && id in host.s.actors && host.s.now >= old(host.s.now)
    ensures host.s.actors[id] == old(host.s.actors[id]).(pc := Failed(heldBy))
  {
    ghost var s0 := host.s;
    host.Act(id, GiveUp, schedule);
    LeadsThrough(before, s0, host.s);
    ghost var s1 := host.s;
    heldBy := ReadHolder(host.s.file, true);
    host.Perform(Own(id, ReadFile));
    LeadsThrough(before, s1, host.s);
  }

  /** The flock is held: publish the record, in the exclusive role. */
  method Enter(host: Host, id: nat, after: Schedule, ghost before: State)
    requires Leads(before, host.s) && id in host.s.actors && host.s.actors[id].pc.Granted?
    modifies host
    ensures host.s == Entered(old(host.s), id, after)
    ensures Leads(before, host.s) && id in host.s.actors && host.s.actors[id] == old(host.s.actors[id]).(pc := Held)
  {
    ghost var s0 := host.s;
    if ModeOf(host.s.actors[id].program) == Exclusive {
      host.Act(id, Truncate, after(0));
      LeadsThrough(before, s0, host.s);
      ghost var s1 := host.s;
      host.Act(id, WriteRecord, after(1));
      LeadsThrough(before, s1, host.s);
    } else {
      host.Act(id, EnterShared, after(0));
      LeadsThrough(before, s0, host.s);
    }
  }

  datatype Tried = Success | Again | Failure(heldBy: map<string, string>)

  /** One round of the acquire loop: what it was, and the host and the actor after it. */
  method Round(host: Host, id: nat, schedule: seq<Step>, waiting: seq<Step>, after: Schedule, ghost before: State) returns (tried: Tried)
    requires Leads(before, host.s) && id in host.s.actors && host.s.actors[id].pc.Polling? && host.s.actors[id].pc.wake <= host.s.now
    modifies host
    ensures Leads(before, host.s) && id in host.s.actors
    ensures tried.Again? <==> !Free(old(host.s), id) && InTime(Refusal(old(host.s), id, schedule), id)
    ensures tried.Again? ==> host.s == Pause(Refusal(old(host.s), id, schedule), id, waiting)
    ensures !tried.Again? ==> EndsAt(old(host.s), id, schedule, after, host.s, if tried.Success? then None else Some(tried.heldBy))
    ensures var (a, b) := (old(host.s.actors[id]), host.s.actors[id]);
            match tried
            case Success => b == Log(a, Acquired, Held)
            case Failure(heldBy) => b == a.(pc := Failed(heldBy)) && host.s.now >= a.deadline
            case Again =>
              && b == a.(pc := b.pc) && b.pc.Polling? && b.pc.wake <= host.s.now
              && old(host.s.now) < a.deadline && host.s.now >= old(host.s.now) + POLL_INTERVAL
  {
    var granted := Try(host, id, schedule, before);
    if granted {
      Enter(host, id, after, before);
      return Success;
    }
    if host.s.now >= host.s.actors[id].deadline {
      var heldBy := GiveUpAndRead(host, id, after(0), before);
      return Failure(heldBy);
    }
    Wait(host, id, waiting, before);
    tried := Again;
  }

  /** The acquire loop of an actor that has opened the file: try, and while refused sleep until the
      deadline; `tried` is the host at each try. A caller without patience tries exactly once. */
  method AcquireLoop(host: Host, id: nat, tries: Schedule, waits: Schedule, after: Schedule, ghost tried: nat -> State)
      returns (lock: PcscdDomainLock?, heldBy: map<string, string>, n: nat)
    requires id in host.s.actors && host.s.actors[id].pc.Polling? && host.s.actors[id].pc.wake <= host.s.now
    requires host.s == tried(0) && Unrolls(tried, id, tries, waits)
    modifies host
    ensures Leads(old(host.s), host.s) && id in host.s.actors
    ensures AcquireEnds(tried, id, tries, after, n, host.s, if lock != null then None else Some(heldBy))
    ensures lock != null ==> fresh(lock) && lock.fd == id && host.s.actors[id] == Log(old(host.s.actors[id]), Acquired, Held)
    ensures lock == null ==>
              host.s.actors[id] == old(host.s.actors[id]).(pc := Failed(heldBy)) && host.s.now >= host.s.actors[id].deadline
    ensures old(host.s.actors[id].deadline) <= old(host.s.now) ==> n == 0
  {
    ghost var s0 := host.s;
    LeadsSelf(s0);
    lock, heldBy, n := null, map[], 0;
    while true
      invariant Leads(s0, host.s) && host.s == tried(n) && host.s.now >= s0.now && id in host.s.actors
      invariant host.s.actors[id] == s0.actors[id].(pc := host.s.actors[id].pc)
      invariant host.s.actors[id].pc.Polling? && host.s.actors[id].pc.wake <= host.s.now
      invariant RefusedBefore(tried, id, tries, n)
      invariant n > 0 ==> s0.now < s0.actors[id].deadline
      decreases ((s0.actors[id].deadline - host.s.now) * 2.0).Floor + 2
    {
      var round := Round(host, id, tries(n), waits(n), after, s0);
      if round.Success? {
        lock := new PcscdDomainLock(id);
        return;
      }
      if round.Failure? {
        heldBy := round.heldBy;
        return;
      }
      assert UnrollsAt(tried, id, tries, waits, n);
      RefusedOnce(tried, id, tries, n);
      n := n + 1;
    }
  }

  /** The acquire function, from the opened file on. */
  method Acquire(host: Host, id: nat, tries: Schedule, waits: Schedule, after: Schedule)
      returns (lock: PcscdDomainLock?, heldBy: map<string, string>, n: nat)
    requires id in host.s.actors && host.s.actors[id].pc.Polling? && host.s.actors[id].pc.wake <= host.s.now
    modifies host
    ensures Leads(old(host.s), host.s) && id in host.s.actors
    ensures AcquireEnds(TriesFrom(old(host.s), id, tries, waits), id, tries, after, n, host.s, if lock != null then None else Some(heldBy))
    ensures lock != null ==> fresh(lock) && lock.fd == id && host.s.actors[id] == Log(old(host.s.actors[id]), Acquired, Held)
    ensures lock == null ==>
              host.s.actors[id] == old(host.s.actors[id]).(pc := Failed(heldBy)) && host.s.now >= host.s.actors[id].deadline
    ensures old(host.s.actors[id].deadline) <= old(host.s.now) ==> n == 0
  {
    TriesUnroll(host.s, id, tries, waits);
    lock, heldBy, n := AcquireLoop(host, id, tries, waits, after, TriesFrom(host.s, id, tries, waits));
  }
}
