/** The pcscd coupling domain: one advisory flock with a shared reader role and an exclusive
    disturbance role, and the coordinated restart that runs under it.

    The model is a labelled transition system. An actor is one call of an acquire function (its
    fresh open file description carries the flock) together with what its caller does while
    holding the lock. The kernel keeps the flocks, `systemd` keeps running restart jobs, and any
    process may die at any point. `Enabled` says when a step can happen and `Apply` what it does;
    every interleaving of the actors is a sequence of steps. */
module PcscdDomain {
  import opened Options
  import opened HolderRecord

  datatype Role = Reader | Disturbance

  /** A session that holds the domain in a role, or a call of `restart`. */
  datatype Program = Session(role: Role) | Restart

  datatype Mode = Shared | Exclusive

  function ModeOf(program: Program): Mode {
    if program == Session(Reader) then Shared else Exclusive
  }

  /** How a holder left: a session ended, or what `restart` returned or raised. */
  datatype Result =
    | Ended
    | Denied(holders: seq<string>)
    | DeniedLate(holders: seq<string>)
    | Finished(rc: int, stable: bool)
    | Raised

  datatype Pc =
    | PreCheck                         // restart: about to ask labgrid, no lock yet
    | Polling(wake: real)              // file open, about to try the flock at `wake`
    | Refused                          // the flock would block
    | GaveUp                           // deadline passed, file closed
    | Failed(heldBy: map<string, string>)
    | Granted                          // flock held, acquire not yet returned
    | Truncated                        // lock file emptied
    | Held                             // acquire returned
    | Cleared                          // restart: nobody else holds a place
    | Restarting                       // restart: systemctl is running
    | Probing(rc: int, until: real)    // restart: waiting for PC/SC
    | Leaving(result: Result)          // about to unlock
    | Unlocked(result: Result)         // about to close the file
    | Done(result: Result)
    | Dead(last: Pc)

  /** What one actor did, in order. */
  datatype Event = Acquired | CheckedUnderLock(holders: seq<string>) | RestartIssued | Released

  datatype Actor = Actor(pid: nat, program: Program, record: Items, deadline: real, pc: Pc, history: seq<Event>)

  /** `author` is the actor whose record the file holds, if it holds one. */
  datatype State = State(
    now: real,
    flocks: map<nat, Mode>,
    actors: map<nat, Actor>,
    file: string,
    author: Option<nat>,
    jobs: set<nat>)

  /** One atomic action of an actor's own program. */
  datatype Move =
    | PreChecked(holders: seq<string>, wait: real)
    | Grant
    | Refuse
    | Backoff
    | GiveUp
    | ReadFile
    | EnterShared
    | Truncate
    | WriteRecord
    | EndSession
    | LateChecked(holders: seq<string>)
    | IssueRestart
    | SystemctlReturned(rc: int, patience: real)
    | SystemctlRaised
    | Probed(stable: bool)
    | ProbeExpired
    | ProbeRaised
    | Unlock
    | Close

  datatype Step =
    | Tick(dt: real)
    | StartSession(id: nat, pid: nat, role: Role, record: Items, wait: real)
    | StartRestart(id: nat, pid: nat, record: Items)
    | Own(id: nat, move: Move)
    | JobEnds(id: nat)
    | Crash(pid: nat)

  const POLL_INTERVAL := 0.5

  /** Where in its program an actor must be to make a move. */
  predicate CanMove(a: Actor, now: real, move: Move) {
    match move
    case PreChecked(_, _) => a.pc.PreCheck?
    case Grant => a.pc.Polling? && a.pc.wake <= now
    case Refuse => a.pc.Polling? && a.pc.wake <= now
    case Backoff => a.pc.Refused? && now < a.deadline
    case GiveUp => a.pc.Refused? && now >= a.deadline
    case ReadFile => a.pc.GaveUp?
    case EnterShared => a.pc.Granted? && ModeOf(a.program) == Shared
    case Truncate => a.pc.Granted? && ModeOf(a.program) == Exclusive
    case WriteRecord => a.pc.Truncated?
    case EndSession => a.pc.Held? && a.program.Session?
    case LateChecked(_) => a.pc.Held? && a.program.Restart?
    case IssueRestart => a.pc.Cleared?
    case SystemctlReturned(_, _) => a.pc.Restarting?
    case SystemctlRaised => a.pc.Restarting?
    case Probed(_) => a.pc.Probing?
    case ProbeExpired => a.pc.Probing? && a.pc.until <= now
    case ProbeRaised => a.pc.Probing?
    case Unlock => a.pc.Leaving?
    case Close => a.pc.Unlocked?
  }

  function Log(a: Actor, event: Event, pc: Pc): Actor {
    a.(pc := pc, history := a.history + [event])
  }

  /** The actor after its move. */
  function Advance(a: Actor, now: real, file: string, move: Move): Actor
    requires CanMove(a, now, move)
  {
    match move
    case PreChecked(holders, wait) =>
      if holders != [] then a.(pc := Done(Denied(holders))) else a.(deadline := now + wait, pc := Polling(now))
    case Grant => Log(a, Acquired, Granted)
    case Refuse => a.(pc := Refused)
    case Backoff => a.(pc := Polling(now + POLL_INTERVAL))
    case GiveUp => a.(pc := GaveUp)
    case ReadFile => a.(pc := Failed(Parse(file)))
    case EnterShared => a.(pc := Held)
    case Truncate => a.(pc := Truncated)
    case WriteRecord => a.(pc := Held)
    case EndSession => a.(pc := Leaving(Ended))
    case LateChecked(holders) =>
      Log(a, CheckedUnderLock(holders), if holders != [] then Leaving(DeniedLate(holders)) else Cleared)
    case IssueRestart => Log(a, RestartIssued, Restarting)
    case SystemctlReturned(rc, patience) => a.(pc := Probing(rc, now + patience))
    case SystemctlRaised => a.(pc := Leaving(Raised))
    case Probed(stable) => if stable then a.(pc := Leaving(Finished(a.pc.rc, true))) else a
    case ProbeExpired => a.(pc := Leaving(Finished(a.pc.rc, false)))
    case ProbeRaised => a.(pc := Leaving(Raised))
    case Unlock => Log(a, Released, Unlocked(a.pc.result))
    case Close => a.(pc := Done(a.pc.result))
  }

  /** The kernel's rule for a fresh open file description. */
  predicate Compatible(flocks: map<nat, Mode>, mode: Mode) {
    if mode == Exclusive then flocks == map[] else forall other | other in flocks :: flocks[other] == Shared
  }

  predicate Enabled(s: State, step: Step) {
    match step
    case Tick(dt) => dt >= 0.0
    case StartSession(id, _, _, _, _) => id !in s.actors
    case StartRestart(id, _, _) => id !in s.actors
    case Own(id, move) =>
      && id in s.actors
      && CanMove(s.actors[id], s.now, move)
      && (move.Grant? ==> Compatible(s.flocks, ModeOf(s.actors[id].program)))
      && (move.Refuse? ==> !Compatible(s.flocks, ModeOf(s.actors[id].program)))
      && (move.SystemctlReturned? ==> id !in s.jobs)
    case JobEnds(id) => id in s.jobs
    case Crash(_) => true
  }

  predicate IsOver(pc: Pc) {
    pc.Failed? || pc.Done? || pc.Dead?
  }

  function Die(a: Actor): Actor {
    if IsOver(a.pc) then a else a.(pc := Dead(a.pc))
  }

  function Apply(s: State, step: Step): State
    requires Enabled(s, step)
  {
    match step
    case Tick(dt) => s.(now := s.now + dt)
    case StartSession(id, pid, role, record, wait) =>
      s.(actors := s.actors[id := Actor(pid, Session(role), record, s.now + wait, Polling(s.now), [])])
    case StartRestart(id, pid, record) =>
      s.(actors := s.actors[id := Actor(pid, Restart, record, s.now, PreCheck, [])])
    case Own(id, move) => ApplyMove(s, id, move)
    case JobEnds(id) => s.(jobs := s.jobs - {id})
    case Crash(pid) => Kill(s, pid)
  }

  /** A process dies: its programs stop where they are and the kernel drops its flocks. */
  function Kill(s: State, pid: nat): State {
    s.(flocks := map id | id in s.flocks && !(id in s.actors && s.actors[id].pid == pid) :: s.flocks[id],
       actors := map id | id in s.actors :: if s.actors[id].pid == pid then Die(s.actors[id]) else s.actors[id])
  }

  function ApplyMove(s: State, id: nat, move: Move): State
    requires id in s.actors && CanMove(s.actors[id], s.now, move)
  {
    var a := s.actors[id];
    State(
      s.now,
      if move.Grant? then s.flocks[id := ModeOf(a.program)] else if move.Unlock? then s.flocks - {id} else s.flocks,
      s.actors[id := Advance(a, s.now, s.file, move)],
      if move.Truncate? then "" else if move.WriteRecord? then Render(a.record) else s.file,
      if move.Truncate? then None else if move.WriteRecord? then Some(id) else s.author,
      if move.IssueRestart? then s.jobs + {id} else s.jobs)
  }

  predicate CanRun(s: State, steps: seq<Step>)
    decreases steps
  {
    steps == [] || (Enabled(s, steps[0]) && CanRun(Apply(s, steps[0]), steps[1..]))
  }

  function Exec(s: State, steps: seq<Step>): State
    requires CanRun(s, steps)
    decreases steps
  {
    if steps == [] then s else Exec(Apply(s, steps[0]), steps[1..])
  }

  /** Nobody has started; the lock file may hold anything an earlier boot left behind. */
  ghost predicate Init(s: State) {
    s.flocks == map[] && s.actors == map[] && s.jobs == {} && s.author == None
  }

  // ----- the invariant

  /** The points at which an actor holds the flock. */
  predicate Holding(pc: Pc) {
    pc.Granted? || pc.Truncated? || pc.Held? || pc.Cleared? || pc.Restarting? || pc.Probing? || pc.Leaving?
  }

  /** An exclusive acquire has returned and its release has not unlocked. */
  predicate Published(a: Actor) {
    ModeOf(a.program) == Exclusive && Holding(a.pc) && !a.pc.Granted? && !a.pc.Truncated?
  }

  predicate Wrote(pc: Pc) {
    match pc
    case Dead(last) => Wrote(last)
    case _ => (Holding(pc) && !pc.Granted? && !pc.Truncated?) || pc.Unlocked? || pc.Done?
  }

  /** The complete and partial courses, by the events that follow the acquisition. */
  datatype Shape = Nothing | Got | GotReleased | Checked(holders: seq<string>) | CheckedReleased(holders: seq<string>) | Issued | IssuedReleased

  function Events(shape: Shape): seq<Event> {
    match shape
    case Nothing => []
    case Got => [Acquired]
    case GotReleased => [Acquired, Released]
    case Checked(holders) => [Acquired, CheckedUnderLock(holders)]
    case CheckedReleased(holders) => [Acquired, CheckedUnderLock(holders), Released]
    case Issued => [Acquired, CheckedUnderLock([]), RestartIssued]
    case IssuedReleased => [Acquired, CheckedUnderLock([]), RestartIssued, Released]
  }

  function ShapeOf(pc: Pc): Shape {
    match pc
    case Granted => Got
    case Truncated => Got
    case Held => Got
    case Cleared => Checked([])
    case Restarting => Issued
    case Probing(_, _) => Issued
    case Leaving(result) => if result.Ended? then Got else if result.DeniedLate? then Checked(result.holders) else Issued
    case Unlocked(result) =>
      if result.Ended? then GotReleased else if result.DeniedLate? then CheckedReleased(result.holders) else IssuedReleased
    case Done(result) =>
      if result.Denied? then Nothing else if result.Ended? then GotReleased
      else if result.DeniedLate? then CheckedReleased(result.holders) else IssuedReleased
    case _ => Nothing
  }

  predicate ResultOf(program: Program, result: Result) {
    if program.Session? then result == Ended
    else result != Ended && (result.DeniedLate? || result.Denied? ==> result.holders != [])
  }

  /** Which program can be at which point, and with which result. */
  predicate Belongs(program: Program, pc: Pc) {
    match pc
    case PreCheck => program.Restart?
    case Truncated => ModeOf(program) == Exclusive
    case Cleared => program.Restart?
    case Restarting => program.Restart?
    case Probing(_, _) => program.Restart?
    case Leaving(result) => ResultOf(program, result) && !result.Denied?
    case Unlocked(result) => ResultOf(program, result) && !result.Denied?
    case Done(result) => ResultOf(program, result)
    case _ => true
  }

  predicate HistoryFits(program: Program, pc: Pc, history: seq<Event>) {
    match pc
    case Dead(last) => !last.Dead? && HistoryFits(program, last, history)
    case _ => Belongs(program, pc) && history == Events(ShapeOf(pc))
  }

  /** A call that issued a restart and has not seen its job finish. */
  predicate AwaitsJob(pc: Pc) {
    match pc
    case Restarting => true
    case Leaving(result) => result == Raised
    case Unlocked(result) => result == Raised
    case Done(result) => result == Raised
    case Dead(last) => AwaitsJob(last)
    case _ => false
  }

  /** Kernel and actors agree on who holds the flock, and an exclusive holder is alone. */
  ghost predicate FlockInv(s: State) {
    && (forall id | id in s.flocks :: id in s.actors && s.flocks[id] == ModeOf(s.actors[id].program))
    && (forall id | id in s.actors :: id in s.flocks <==> Holding(s.actors[id].pc))
    && (forall id, other | id in s.flocks && other in s.flocks :: s.flocks[id] == Exclusive ==> other == id)
  }

  /** Whose record the file holds. */
  ghost predicate FileInv(s: State) {
    && (forall id | id in s.actors && Published(s.actors[id]) :: s.author == Some(id))
    && (forall id | id in s.actors && s.actors[id].pc.Truncated? :: s.author == None && s.file == "")
    && (s.author.Some? ==>
          var id := s.author.value;
          && id in s.actors && ModeOf(s.actors[id].program) == Exclusive
          && Wrote(s.actors[id].pc) && s.file == Render(s.actors[id].record))
  }

  ghost predicate HistoryInv(s: State) {
    forall id | id in s.actors :: HistoryFits(s.actors[id].program, s.actors[id].pc, s.actors[id].history)
  }

  ghost predicate JobInv(s: State) {
    forall id | id in s.jobs :: id in s.actors && AwaitsJob(s.actors[id].pc)
  }

  ghost predicate Inv(s: State) {
    FlockInv(s) && FileInv(s) && HistoryInv(s) && JobInv(s)
  }

  lemma MoveFacts(a: Actor, now: real, file: string, move: Move)
    requires CanMove(a, now, move)
    ensures var b := Advance(a, now, file, move);
            && b.program == a.program && b.record == a.record && b.pid == a.pid
            && Holding(b.pc) == (move.Grant? || (Holding(a.pc) && !move.Unlock?))
            && (move.Grant? ==> !Holding(a.pc))
            && (move.Unlock? || move.Truncate? || move.WriteRecord? ==> Holding(a.pc))
            && (b.pc.Truncated? <==> move.Truncate?)
            && (Wrote(a.pc) ==> Wrote(b.pc))
  {
  }

  lemma MovePublishes(a: Actor, now: real, file: string, move: Move)
    requires CanMove(a, now, move) && HistoryFits(a.program, a.pc, a.history)
    ensures var b := Advance(a, now, file, move);
            && Published(b) == (move.WriteRecord? || (Published(a) && !move.Unlock?))
            && (move.WriteRecord? ==> ModeOf(a.program) == Exclusive && Wrote(b.pc))
            && (move.Truncate? ==> ModeOf(a.program) == Exclusive)
  {
  }

  lemma MoveHistory(a: Actor, now: real, file: string, move: Move)
    requires CanMove(a, now, move) && HistoryFits(a.program, a.pc, a.history)
    ensures var b := Advance(a, now, file, move); HistoryFits(b.program, b.pc, b.history)
  {
  }

  lemma MoveJob(a: Actor, now: real, file: string, move: Move)
    requires CanMove(a, now, move) && AwaitsJob(a.pc) && !move.SystemctlReturned?
    ensures AwaitsJob(Advance(a, now, file, move).pc)
  {
  }

  lemma FlockMove(s: State, id: nat, move: Move)
    requires FlockInv(s) && Enabled(s, Own(id, move))
    ensures FlockInv(ApplyMove(s, id, move))
  {
    MoveFacts(s.actors[id], s.now, s.file, move);
  }

  lemma FileMove(s: State, id: nat, move: Move)
    requires FlockInv(s) && FileInv(s) && HistoryInv(s) && Enabled(s, Own(id, move))
    ensures FileInv(ApplyMove(s, id, move))
  {
    MoveFacts(s.actors[id], s.now, s.file, move);
    MovePublishes(s.actors[id], s.now, s.file, move);
    var t := ApplyMove(s, id, move);
    forall other | other in t.actors && Published(t.actors[other])
      ensures t.author == Some(other)
    {
      if move.Truncate? || move.WriteRecord? {
        assert id in s.flocks && s.flocks[id] == Exclusive;
        assert other in s.flocks || other == id;
      }
    }
  }

  lemma HistoryMove(s: State, id: nat, move: Move)
    requires HistoryInv(s) && Enabled(s, Own(id, move))
    ensures HistoryInv(ApplyMove(s, id, move))
  {
    MoveHistory(s.actors[id], s.now, s.file, move);
  }

  lemma JobMove(s: State, id: nat, move: Move)
    requires JobInv(s) && Enabled(s, Own(id, move))
    ensures JobInv(ApplyMove(s, id, move))
  {
    if id in s.jobs {
      MoveJob(s.actors[id], s.now, s.file, move);
    }
  }

  /** A dead process keeps its history and what it wrote, and holds nothing. */
  lemma DieFacts(a: Actor)
    requires HistoryFits(a.program, a.pc, a.history)
    ensures var b := Die(a);
            && b.program == a.program && b.record == a.record && b.history == a.history
            && !Holding(b.pc) && (Wrote(a.pc) ==> Wrote(b.pc)) && (AwaitsJob(a.pc) ==> AwaitsJob(b.pc))
            && HistoryFits(b.program, b.pc, b.history)
  {
  }

  lemma CrashFacts(s: State, pid: nat)
    requires Inv(s)
    ensures var t := Kill(s, pid);
            && t.actors.Keys == s.actors.Keys
            && (forall id | id in s.actors :: t.actors[id] == if s.actors[id].pid == pid then Die(s.actors[id]) else s.actors[id])
            && (forall id | id in s.actors :: HistoryFits(t.actors[id].program, t.actors[id].pc, t.actors[id].history))
            && (forall id | id in s.actors && s.actors[id].pid == pid :: !Holding(t.actors[id].pc))
  {
    forall id | id in s.actors
      ensures HistoryFits(Die(s.actors[id]).program, Die(s.actors[id]).pc, Die(s.actors[id]).history)
      ensures !Holding(Die(s.actors[id]).pc)
    {
      DieFacts(s.actors[id]);
    }
  }

  lemma CrashFlock(s: State, pid: nat)
    requires Inv(s)
    ensures FlockInv(Kill(s, pid)) && HistoryInv(Kill(s, pid))
  {
    CrashFacts(s, pid);
  }

  lemma CrashFile(s: State, pid: nat)
    requires Inv(s)
    ensures FileInv(Kill(s, pid)) && JobInv(Kill(s, pid))
  {
    CrashFacts(s, pid);
    forall id | id in s.actors
      ensures Wrote(s.actors[id].pc) ==> Wrote(Die(s.actors[id]).pc)
      ensures AwaitsJob(s.actors[id].pc) ==> AwaitsJob(Die(s.actors[id]).pc)
    {
      DieFacts(s.actors[id]);
    }
  }

  lemma InvStart(s: State, id: nat, a: Actor)
    requires Inv(s) && id !in s.actors
    requires !Holding(a.pc) && HistoryFits(a.program, a.pc, a.history)
    ensures Inv(s.(actors := s.actors[id := a]))
  {
  }

  lemma InvOwn(s: State, id: nat, move: Move)
    requires Inv(s) && Enabled(s, Own(id, move))
    ensures Inv(ApplyMove(s, id, move))
  {
    FlockMove(s, id, move);
    FileMove(s, id, move);
    HistoryMove(s, id, move);
    JobMove(s, id, move);
  }

  lemma InvCrash(s: State, pid: nat)
    requires Inv(s)
    ensures Inv(Kill(s, pid))
  {
    CrashFlock(s, pid);
    CrashFile(s, pid);
  }

  lemma InvAround(s: State, dt: real, jobs: set<nat>)
    requires Inv(s) && jobs <= s.jobs
    ensures Inv(s.(now := s.now + dt, jobs := jobs))
  {
  }

  lemma InvSession(s: State, id: nat, pid: nat, role: Role, record: Items, wait: real)
    requires Inv(s) && id !in s.actors
    ensures Inv(Apply(s, StartSession(id, pid, role, record, wait)))
  {
    var a := Actor(pid, Session(role), record, s.now + wait, Polling(s.now), []);
    InvStart(s, id, a);
    assert Apply(s, StartSession(id, pid, role, record, wait)) == s.(actors := s.actors[id := a]);
  }

  lemma InvRestart(s: State, id: nat, pid: nat, record: Items)
    requires Inv(s) && id !in s.actors
    ensures Inv(Apply(s, StartRestart(id, pid, record)))
  {
    InvStart(s, id, Actor(pid, Restart, record, s.now, PreCheck, []));
  }

  lemma InvStep(s: State, step: Step)
    requires Inv(s) && Enabled(s, step)
    ensures Inv(Apply(s, step))
  {
    match step
    case StartSession(id, pid, role, record, wait) =>
      InvSession(s, id, pid, role, record, wait);
    case StartRestart(id, pid, record) =>
      InvRestart(s, id, pid, record);
    case Own(id, move) =>
      InvOwn(s, id, move);
    case Crash(pid) =>
      InvCrash(s, pid);
    case Tick(dt) =>
      InvAround(s, dt, s.jobs);
    case JobEnds(id) =>
      InvAround(s, 0.0, s.jobs - {id});
  }

  lemma {:induction false} InvRun(s: State, steps: seq<Step>)
    requires Inv(s) && CanRun(s, steps)
    ensures Inv(Exec(s, steps))
    decreases steps
  {
    if steps != [] {
      InvStep(s, steps[0]);
      InvRun(Apply(s, steps[0]), steps[1..]);
    }
  }
}
