/** The session registry: every session announces itself in a file of its own and holds that file's
    flock while it lives; a record that still says "running" while the flock is free is reported LOST.

    A file is rewritten in place, so between the emptying and the writing it cannot be parsed, and a
    process may die at any point. */
module SessionRegistry {
  import opened Options

  const MAX_RECORD_AGE := 604800.0   // seven days

  /** The session's file: not parseable, a record with its status, or removed. */
  datatype File = Torn | Whole(status: string) | Missing

  datatype Pc =
    | Opened                          // file created, flock not yet taken
    | Locked                          // about to write the first record
    | Flushing(final: Option<string>) // file emptied; `final` is the status given to `end`
    | Active
    | Closing                         // `end` has written its record
    | Ended                           // descriptor closed
    | Dead(last: Pc)

  /** `begun` tells that `session_begin` has written its record, `ended` what `end` has written, and
      `linked` that the path still names the file that was opened and locked: a removed file is created
      anew by the next rewrite, without a flock. */
  datatype Session = Session(started: real, pc: Pc, file: File, begun: bool, ended: Option<string>, linked: bool)

  datatype Move = Lock | Flush | EndWith(status: string) | Write | Close | Die | Prune

  predicate Enabled(s: Session, now: real, move: Move) {
    match move
    case Lock => s.pc.Opened?
    case Flush => s.pc.Locked? || s.pc.Active?
    case EndWith(_) => s.pc.Active?
    case Write => s.pc.Flushing?
    case Close => s.pc.Closing?
    case Die => !s.pc.Dead? && !s.pc.Ended?
    case Prune => s.file.Whole? && now - s.started > MAX_RECORD_AGE
  }

  function Apply(s: Session, move: Move): Session {
    match move
    case Lock => s.(pc := Locked)
    case Flush => s.(pc := Flushing(None), file := Torn)
    case EndWith(status) => s.(pc := Flushing(Some(status)), file := Torn)
    case Write =>
      if s.pc.Flushing? && s.pc.final.Some? then s.(pc := Closing, file := Whole(s.pc.final.value), ended := s.pc.final)
      else s.(pc := Active, file := Whole("running"), begun := true)
    case Close => s.(pc := Ended)
    case Die => s.(pc := Dead(s.pc))
    case Prune => s.(file := Missing, linked := false)
  }

  function Begin(now: real): Session {
    Session(now, Opened, Torn, false, None, true)
  }

  /** The session's own descriptor is open and holds the flock. */
  predicate FlockHeld(s: Session) {
    s.pc.Locked? || s.pc.Flushing? || s.pc.Active? || s.pc.Closing?
  }

  /** What a probe of the path finds: a removed or recreated file is not locked by anybody. */
  predicate ProbeFindsFlock(s: Session) {
    s.linked && FlockHeld(s)
  }

  predicate DescriptorClosed(s: Session) {
    s.pc.Ended? || s.pc.Dead?
  }

  /** What `sessions_status` does with one file. */
  datatype Report = Skipped | Pruned | Shown(status: string) | Lost

  function Seen(s: Session, now: real): Report {
    match s.file
    case Torn => Skipped
    case Missing => Skipped
    case Whole(status) =>
      if now - s.started > MAX_RECORD_AGE then Pruned
      else if status == "running" && !ProbeFindsFlock(s) then Lost
      else Shown(status)
  }

  // ----- all sessions, and readers that read a record and probe its flock in two steps

  datatype World = World(now: real, sessions: map<nat, Session>, readers: map<nat, nat>)

  datatype Step =
    | Pass(dt: real)
    | Start(id: nat)
    | Own(id: nat, move: Move)
    | ReadRunning(reader: nat, id: nat)   // read a young record that says "running"
    | Probe(reader: nat)                  // and then probe its flock

  predicate CanStep(w: World, step: Step) {
    match step
    case Pass(dt) => dt >= 0.0
    case Start(id) => id !in w.sessions
    case Own(id, move) => id in w.sessions && Enabled(w.sessions[id], w.now, move)
    case ReadRunning(reader, id) =>
      && reader !in w.readers && id in w.sessions && w.sessions[id].file == Whole("running")
      && w.now - w.sessions[id].started <= MAX_RECORD_AGE
    case Probe(reader) => reader in w.readers
  }

  function Do(w: World, step: Step): World
    requires CanStep(w, step)
  {
    match step
    case Pass(dt) => w.(now := w.now + dt)
    case Start(id) => w.(sessions := w.sessions[id := Begin(w.now)])
    case Own(id, move) => w.(sessions := w.sessions[id := Apply(w.sessions[id], move)])
    case ReadRunning(reader, id) => w.(readers := w.readers[reader := id])
    case Probe(reader) => w.(readers := w.readers - {reader})
  }

  /** The probe finds the flock free: the reader reports LOST. */
  predicate ReportsLost(w: World, reader: nat)
    requires reader in w.readers
  {
    w.readers[reader] in w.sessions && !ProbeFindsFlock(w.sessions[w.readers[reader]])
  }

  predicate CanRun(w: World, steps: seq<Step>)
    decreases steps
  {
    steps == [] || (CanStep(w, steps[0]) && CanRun(Do(w, steps[0]), steps[1..]))
  }

  function Exec(w: World, steps: seq<Step>): World
    requires CanRun(w, steps)
    decreases steps
  {
    if steps == [] then w else Exec(Do(w, steps[0]), steps[1..])
  }

  /** What the file says at a point of the session's program, unless it has been pruned. */
  function FileAt(pc: Pc, ended: Option<string>): File {
    match pc
    case Active => Whole("running")
    case Closing => if ended.Some? then Whole(ended.value) else Torn
    case Ended => if ended.Some? then Whole(ended.value) else Torn
    case Dead(last) => FileAt(last, ended)
    case _ => Torn
  }

  predicate PcFits(begun: bool, ended: Option<string>, pc: Pc) {
    match pc
    case Opened => !begun && ended.None?
    case Locked => !begun && ended.None?
    case Flushing(final) => ended.None? && (final.Some? ==> begun)
    case Active => begun && ended.None?
    case Closing => begun && ended.Some?
    case Ended => begun && ended.Some?
    case Dead(last) => !last.Dead? && !last.Ended? && PcFits(begun, ended, last)
  }

  predicate Inv(s: Session, now: real) {
    && s.started <= now
    && PcFits(s.begun, s.ended, s.pc)
    && (s.file == FileAt(s.pc, s.ended) || (s.file == Missing && now - s.started > MAX_RECORD_AGE))
    && (!s.linked ==> now - s.started > MAX_RECORD_AGE)
  }

  ghost predicate WorldInv(w: World) {
    && (forall id | id in w.sessions :: Inv(w.sessions[id], w.now))
    && (forall reader | reader in w.readers :: w.readers[reader] in w.sessions && w.sessions[w.readers[reader]].begun)
  }

  lemma MoveInv(s: Session, now: real, move: Move)
    requires Inv(s, now) && Enabled(s, now, move)
    ensures Inv(Apply(s, move), now)
    ensures s.begun ==> Apply(s, move).begun
  {
  }

  /** Where a session whose file can be parsed has got to. */
  lemma ParseableFile(s: Session, now: real)
    requires Inv(s, now) && s.file.Whole?
    ensures s.begun
    ensures var pc := if s.pc.Dead? then s.pc.last else s.pc;
            if s.ended.None? then pc.Active? && s.file == Whole("running")
            else (pc.Closing? || pc.Ended?) && s.file == Whole(s.ended.value)
  {
    var pc := if s.pc.Dead? then s.pc.last else s.pc;
    assert FileAt(pc, s.ended) == s.file && PcFits(s.begun, s.ended, pc);
  }

  lemma StepInv(w: World, step: Step)
    requires WorldInv(w) && CanStep(w, step)
    ensures WorldInv(Do(w, step))
  {
    if step.Own? {
      MoveInv(w.sessions[step.id], w.now, step.move);
    } else if step.ReadRunning? {
      ParseableFile(w.sessions[step.id], w.now);
    }
  }

  lemma {:induction false} RunInv(w: World, steps: seq<Step>)
    requires WorldInv(w) && CanRun(w, steps)
    ensures WorldInv(Exec(w, steps))
    decreases steps
  {
    if steps != [] {
      StepInv(w, steps[0]);
      RunInv(Do(w, steps[0]), steps[1..]);
    }
  }

  predicate Fresh(w: World) {
    w.sessions == map[] && w.readers == map[]
  }

  /** Whatever happens between reading and probing, LOST is reported exactly for a session whose
      descriptor is already closed, or whose file was removed meanwhile, which takes a session of more
      than seven days. A young live session is never called lost. */
  lemma LostOnlyAfterClose(w: World, steps: seq<Step>, reader: nat)
    requires Fresh(w) && CanRun(w, steps) && reader in Exec(w, steps).readers
    ensures Exec(w, steps).readers[reader] in Exec(w, steps).sessions
    ensures var v := Exec(w, steps); var s := v.sessions[v.readers[reader]];
            && (ReportsLost(v, reader) <==> DescriptorClosed(s) || !s.linked)
            && (v.now - s.started <= 604800.0 ==> (ReportsLost(v, reader) <==> DescriptorClosed(s)))
  {
    RunInv(w, steps);
  }

  /** What one file says: torn and missing ones are passed over, a whole record of more than seven days is
      pruned, and any other shows its own status unless it says "running" and nobody holds the flock. */
  lemma SeenExactly(s: Session, now: real)
    ensures Seen(s, now) == Skipped <==> s.file == Torn || s.file == Missing
    ensures Seen(s, now) == Pruned <==> s.file.Whole? && now - s.started > 604800.0
    ensures s.file.Whole? && now - s.started <= 604800.0 ==> Seen(s, now) == Lost || Seen(s, now) == Shown(s.file.status)
    ensures Seen(s, now) == Lost <==>
            && s.file == Whole("running") && now - s.started <= 604800.0
            && !(s.linked && (s.pc == Locked || s.pc == Active || s.pc == Closing || s.pc.Flushing?))
  {
  }

  /** The report that a session deserves, by the point that its program has reached. */
  ghost predicate Deserved(s: Session, now: real, report: Report) {
    && (report == Skipped <==> s.file == Torn || s.file == Missing)
    && (report == Pruned <==> s.file.Whole? && now - s.started > 604800.0)
    && (now - s.started <= 604800.0 ==> DeservedYoung(s, report))
  }

  /** A live session is shown as running and, in the middle of a rewrite, passed over; one that ended is
      shown with its status; one that died running is lost. */
  ghost predicate DeservedYoung(s: Session, report: Report) {
    && (s.pc == Active ==> report == Shown("running"))
    && (s.pc == Closing ==> s.ended.Some? && report == Shown(s.ended.value))
    && (s.pc == Ended || s.pc == Dead(Closing) ==>
          s.ended.Some? && report == if s.ended.value == "running" then Lost else Shown(s.ended.value))
    && (s.pc == Dead(Active) ==> report == Lost)
    && (s.pc == Opened || s.pc == Locked || s.pc.Flushing? ==> report == Skipped)
    && (s.pc.Dead? && (s.pc.last == Opened || s.pc.last == Locked || s.pc.last.Flushing?) ==> report == Skipped)
  }

  /** With the status taken in one step, every session of every run gets the report it deserves; LOST is
      reported exactly when it died running, or was ended with the very status "running". */
  lemma ReportExactly(w: World, steps: seq<Step>, id: nat)
    requires Fresh(w) && CanRun(w, steps) && id in Exec(w, steps).sessions
    ensures var v := Exec(w, steps); var s := v.sessions[id];
            && Deserved(s, v.now, Seen(s, v.now))
            && (Seen(s, v.now) == Lost <==>
                  && v.now - s.started <= 604800.0
                  && (s.pc == Dead(Active) || ((s.pc == Ended || s.pc == Dead(Closing)) && s.ended == Some("running"))))
  {
    RunInv(w, steps);
    var (s, now) := (Exec(w, steps).sessions[id], Exec(w, steps).now);
    assert Inv(s, now);
    SeenExactly(s, now);
    DeservedByInv(s, now);
  }

  lemma DeservedByInv(s: Session, now: real)
    requires Inv(s, now)
    ensures Deserved(s, now, Seen(s, now))
  {
    var pc := if s.pc.Dead? then s.pc.last else s.pc;
    assert FileAt(pc, s.ended) == FileAt(s.pc, s.ended) && PcFits(s.begun, s.ended, pc);
  }

  lemma Two(w: World, steps: seq<Step>)
    requires |steps| >= 2 && CanStep(w, steps[0]) && CanStep(Do(w, steps[0]), steps[1])
    ensures var v := Do(Do(w, steps[0]), steps[1]);
            && (CanRun(w, steps) <==> CanRun(v, steps[2..]))
            && (CanRun(v, steps[2..]) ==> Exec(w, steps) == Exec(v, steps[2..]))
  {
    assert steps[1..][1..] == steps[2..];
  }

  const BEGIN := [Start(1), Own(1, Lock), Own(1, Flush), Own(1, Write)]
  const EMPTY := World(0.0, map[], map[])

  function OneSession(s: Session): World {
    World(0.0, map[1 := s], map[])
  }

  /** After its begin, session 1 is active. */
  lemma Begun(rest: seq<Step>)
    requires CanRun(OneSession(Session(0.0, Active, Whole("running"), true, None, true)), rest)
    ensures CanRun(EMPTY, BEGIN + rest)
    ensures Exec(EMPTY, BEGIN + rest) == Exec(OneSession(Session(0.0, Active, Whole("running"), true, None, true)), rest)
  {
    var steps := BEGIN + rest;
    var w := Do(Do(EMPTY, Start(1)), Own(1, Lock));
    assert w == OneSession(Session(0.0, Locked, Torn, false, None, true));
    var v := Do(Do(w, Own(1, Flush)), Own(1, Write));
    assert v == OneSession(Session(0.0, Active, Whole("running"), true, None, true));
    assert steps[2..][2..] == rest;
    Two(w, steps[2..]);
    Two(EMPTY, steps);
  }

  /** A session that dies while it rewrites its record vanishes: it is neither shown nor reported lost. */
  lemma DeathInARewriteIsInvisible()
    ensures var steps := BEGIN + [Own(1, Flush), Own(1, Die)];
            && CanRun(EMPTY, steps)
            && var v := Exec(EMPTY, steps);
               && 1 in v.sessions && v.sessions[1].begun && v.sessions[1].ended == None && v.sessions[1].pc.Dead?
               && Seen(v.sessions[1], v.now) == Skipped
  {
    var w := OneSession(Session(0.0, Active, Whole("running"), true, None, true));
    Two(w, [Own(1, Flush), Own(1, Die)]);
    Begun([Own(1, Flush), Own(1, Die)]);
  }

  /** A session that ends properly between the reading and the probe is reported lost all the same. */
  lemma EndedInTheGapLooksLost()
    ensures var steps := BEGIN + [ReadRunning(7, 1), Own(1, EndWith("done")), Own(1, Write), Own(1, Close)];
            && CanRun(EMPTY, steps)
            && var v := Exec(EMPTY, steps);
               && 7 in v.readers && ReportsLost(v, 7) && 1 in v.sessions
               && v.sessions[1].pc == Ended && Seen(v.sessions[1], v.now) == Shown("done")
  {
    var rest := [ReadRunning(7, 1), Own(1, EndWith("done")), Own(1, Write), Own(1, Close)];
    var w := OneSession(Session(0.0, Active, Whole("running"), true, None, true));
    var v := Do(Do(w, ReadRunning(7, 1)), Own(1, EndWith("done")));
    assert v.sessions == map[1 := Session(0.0, Flushing(Some("done")), Torn, true, None, true)];
    assert rest[2..] == [Own(1, Write), Own(1, Close)];
    Two(v, rest[2..]);
    Two(w, rest);
    assert "done"[0] == 'd' && "running"[0] == 'r';
    Begun(rest);
  }

  /** A live session is reported lost when its seventh day ends, and another reader removes its file,
      between the reading and the probe. */
  lemma RemovedInTheGapLooksLost()
    ensures var steps := BEGIN + [Pass(MAX_RECORD_AGE), ReadRunning(7, 1), Pass(1.0), Own(1, Prune)];
            && CanRun(EMPTY, steps)
            && var v := Exec(EMPTY, steps);
               && 7 in v.readers && ReportsLost(v, 7) && 1 in v.sessions && v.sessions[1].pc == Active
  {
    var rest := [Pass(MAX_RECORD_AGE), ReadRunning(7, 1), Pass(1.0), Own(1, Prune)];
    var w := OneSession(Session(0.0, Active, Whole("running"), true, None, true));
    var v := Do(Do(w, Pass(MAX_RECORD_AGE)), ReadRunning(7, 1));
    assert v == World(MAX_RECORD_AGE, w.sessions, map[7 := 1]);
    assert rest[2..] == [Pass(1.0), Own(1, Prune)];
    Two(v, rest[2..]);
    Two(w, rest);
    Begun(rest);
  }

  // ----- the programs

  /** The sessions directory of one host. */
  class Bench {
    var w: World
    var lostJournal: seq<nat>
    ghost var trace: seq<Step>   // the steps taken, in order

    constructor (now: real)
      ensures Fresh(w) && w.now == now && lostJournal == [] && trace == []
    {
      trace := [];
      w := World(now, map[], map[]);
      lostJournal := [];
    }

    method Perform(step: Step)
      requires CanStep(w, step)
      modifies this`w, this`trace
      ensures w == Do(old(w), step) && trace == old(trace) + [step]
    {
      trace := trace + [step];
      w := Do(w, step);
    }

    /** `session_begin`: afterwards the record says "running" and the flock is held. */
    method BeginSession(id: nat) returns (handle: SessionHandle)
      requires id !in w.sessions
      modifies this`w, this`trace
      ensures trace == old(trace) + [Start(id), Own(id, Lock), Own(id, Flush), Own(id, Write)]
      ensures fresh(handle) && handle.id == id && handle.open
      ensures w == old(w).(sessions := old(w).sessions[id := Session(old(w).now, Active, Whole("running"), true, None, true)])
    {
      Perform(Start(id));
      Perform(Own(id, Lock));
      Perform(Own(id, Flush));
      Perform(Own(id, Write));
      handle := new SessionHandle(id);
    }

    /** `sessions_status` over the given files: one report each, old records removed, and every lost
        session journaled in order. */
    method Status(ids: seq<nat>) returns (reports: seq<Report>)
      requires forall id | id in ids :: id in w.sessions
      requires Distinct(ids)
      modifies this
      ensures Listed(old(w), ids, w, reports)
      ensures lostJournal == old(lostJournal) + LostAmong(old(w), ids)
    {
      reports := [];
      for n := 0 to |ids|
        invariant Listed(old(w), ids[..n], w, reports)
        invariant lostJournal == old(lostJournal) + LostAmong(old(w), ids[..n])
      {
        ListedNext(old(w), ids, n, w, reports);
        var report := StatusOf(ids[n]);
        reports := reports + [report];
      }
      assert ids[..|ids|] == ids;
    }

    /** One file of the listing. */
    method StatusOf(id: nat) returns (report: Report)
      requires id in w.sessions
      modifies this
      ensures report == Seen(old(w).sessions[id], old(w).now)
      ensures w == old(w).(sessions := old(w).sessions[id := Cleaned(old(w).sessions[id], old(w).now)])
      ensures lostJournal == old(lostJournal) + if report.Lost? then [id] else []
    {
      report := Seen(w.sessions[id], w.now);
      if report.Pruned? {
        Perform(Own(id, Prune));
      }
      if report.Lost? {
        lostJournal := lostJournal + [id];
      }
    }
  }

  ghost predicate Distinct(ids: seq<nat>) {
    forall i, j | 0 <= i < j < |ids| :: ids[i] != ids[j]
  }

  /** A session after a reader has dealt with its file. */
  function Cleaned(s: Session, now: real): Session {
    if Seen(s, now) == Pruned then s.(file := Missing, linked := false) else s
  }

  function AllCleaned(w: World, ids: seq<nat>): World {
    w.(sessions := map id | id in w.sessions :: if id in ids then Cleaned(w.sessions[id], w.now) else w.sessions[id])
  }

  /** After the listing of the given files: one report for each, and all of them cleaned. */
  ghost predicate Listed(before: World, done: seq<nat>, after: World, reports: seq<Report>) {
    && |reports| == |done|
    && (forall i | 0 <= i < |done| :: done[i] in before.sessions && reports[i] == Seen(before.sessions[done[i]], before.now))
    && after == AllCleaned(before, done)
  }

  /** One more file: nobody has touched it yet. */
  lemma ListedNext(before: World, ids: seq<nat>, n: nat, after: World, reports: seq<Report>)
    requires n < |ids| && Distinct(ids) && ids[n] in before.sessions
    requires Listed(before, ids[..n], after, reports)
    ensures var s := before.sessions[ids[n]]; var now := before.now;
            && ids[n] in after.sessions && after.sessions[ids[n]] == s && after.now == now
            && Listed(before, ids[..n + 1], after.(sessions := after.sessions[ids[n] := Cleaned(s, now)]), reports + [Seen(s, now)])
            && LostAmong(before, ids[..n + 1]) == LostAmong(before, ids[..n]) + if Seen(s, now) == Lost then [ids[n]] else []
  {
    assert ids[..n + 1] == ids[..n] + [ids[n]] && ids[n] !in ids[..n];
    ListedOne(before, ids[..n], ids[n], after, reports);
    assert ids[..n + 1][..n] == ids[..n];
  }

  lemma ListedOne(before: World, done: seq<nat>, id: nat, after: World, reports: seq<Report>)
    requires Listed(before, done, after, reports) && id !in done && id in before.sessions
    ensures id in after.sessions && after.sessions[id] == before.sessions[id] && after.now == before.now
    ensures Listed(before, done + [id],
                   after.(sessions := after.sessions[id := Cleaned(before.sessions[id], before.now)]),
                   reports + [Seen(before.sessions[id], before.now)])
  {
    var t := AllCleaned(before, done);
    assert AllCleaned(before, done + [id]).sessions == t.sessions[id := Cleaned(before.sessions[id], before.now)];
  }

  /** The sessions among the given ones that are reported lost. */
  function LostAmong(w: World, ids: seq<nat>): seq<nat> {
    if ids == [] then []
    else
      var id := ids[|ids| - 1];
      LostAmong(w, ids[..|ids| - 1]) + if id in w.sessions && Seen(w.sessions[id], w.now) == Lost then [id] else []
  }

  /** Every entry of a listing is the report its session deserves, and the listing changes nothing but to
      remove the whole records of more than seven days among the given ones. */
  lemma ListingDeserved(w: World, steps: seq<Step>, ids: seq<nat>, after: World, reports: seq<Report>)
    requires Fresh(w) && CanRun(w, steps) && Listed(Exec(w, steps), ids, after, reports)
    ensures var v := Exec(w, steps);
            && |reports| == |ids|
            && (forall i | 0 <= i < |ids| :: ids[i] in v.sessions && Deserved(v.sessions[ids[i]], v.now, reports[i]))
            && after.now == v.now && after.readers == v.readers && after.sessions.Keys == v.sessions.Keys
            && (forall id | id in v.sessions && Outdated(v, ids, id) ::
                  after.sessions[id] == v.sessions[id].(file := Missing, linked := false))
            && (forall id | id in v.sessions && !Outdated(v, ids, id) :: after.sessions[id] == v.sessions[id])
  {
    var v := Exec(w, steps);
    forall i | 0 <= i < |ids|
      ensures Deserved(v.sessions[ids[i]], v.now, reports[i])
    {
      ReportExactly(w, steps, ids[i]);
    }
    forall id | id in v.sessions
      ensures Seen(v.sessions[id], v.now) == Pruned <==> v.sessions[id].file.Whole? && v.now - v.sessions[id].started > 604800.0
    {
      SeenExactly(v.sessions[id], v.now);
    }
  }

  /** A listed session whose whole record is more than seven days old. */
  ghost predicate Outdated(w: World, ids: seq<nat>, id: nat) {
    id in ids && id in w.sessions && w.sessions[id].file.Whole? && w.now - w.sessions[id].started > 604800.0
  }

  /** The journal gets the sessions that are LOST in the listing, in the order of the listing. */
  lemma {:induction false} JournaledInOrder(w: World, ids: seq<nat>, after: World, reports: seq<Report>, front: nat)
    requires Listed(w, ids, after, reports) && front <= |ids|
    ensures LostAmong(w, []) == []
    ensures LostAmong(w, ids) == LostAmong(w, ids[..front]) + LostAmong(w, ids[front..])
    ensures forall i | 0 <= i < |ids| :: LostAmong(w, [ids[i]]) == if reports[i] == Lost then [ids[i]] else []
  {
    LostAmongSplit(w, ids[..front], ids[front..]);
    assert ids[..front] + ids[front..] == ids;
    forall i | 0 <= i < |ids|
      ensures LostAmong(w, [ids[i]]) == if reports[i] == Lost then [ids[i]] else []
    {
      assert [ids[i]][..0] == [];
    }
  }

  lemma {:induction false} LostAmongSplit(w: World, front: seq<nat>, back: seq<nat>)
    ensures LostAmong(w, front + back) == LostAmong(w, front) + LostAmong(w, back)
  {
    if back == [] {
      assert front + back == front;
    } else {
      var n := |back| - 1;
      assert (front + back)[..|front + back| - 1] == front + back[..n];
      LostAmongSplit(w, front, back[..n]);
    }
  }

  /** One announced session. */
  class SessionHandle {
    const id: nat
    var open: bool

    constructor (id: nat)
      ensures this.id == id && open
    {
      this.id := id;
      open := true;
    }

    predicate Live(w: World)
      reads this
    {
      open && id in w.sessions && w.sessions[id].pc == Active
    }

    /** `note` and `add_pid` rewrite the record. */
    method Note(bench: Bench)
      requires Live(bench.w) && bench.w.sessions[id].begun
      modifies bench`w, bench`trace
      ensures bench.trace == old(bench.trace) + [Own(id, Flush), Own(id, Write)]
      ensures Live(bench.w)
      ensures bench.w == old(bench.w).(sessions := old(bench.w).sessions[id := old(bench.w).sessions[id].(file := Whole("running"))])
    {
      bench.Perform(Own(id, Flush));
      bench.Perform(Own(id, Write));
    }

    /** `end`: the final status is written before the flock is released. */
    method End(bench: Bench, status: string)
      requires Live(bench.w)
      modifies this, bench`w, bench`trace
      ensures !open
      ensures bench.trace == old(bench.trace) + Ending(id, status)
      ensures bench.w ==
                old(bench.w).(sessions := old(bench.w).sessions[id := old(bench.w).sessions[id].(pc := Ended, file := Whole(status), ended := Some(status))])
    {
      bench.Perform(Own(id, EndWith(status)));
      bench.Perform(Own(id, Write));
      bench.Perform(Own(id, Close));
      open := false;
    }
  }

  /** The steps of `end`. */
  function Ending(id: nat, status: string): seq<Step> {
    [Own(id, EndWith(status)), Own(id, Write), Own(id, Close)]
  }

  /** The record of a session that ends carries the final status before its flock is free: on the way the
      file is torn, and then whole with the status, while the flock is still held. */
  lemma StatusIsWrittenUnderTheFlock(w: World, id: nat, status: string)
    requires id in w.sessions && w.sessions[id].pc == Active && w.sessions[id].linked
    ensures var steps := Ending(id, status);
            && CanRun(w, steps) && CanRun(w, steps[..1]) && CanRun(w, steps[..2])
            && var (torn, written, closed) := (Exec(w, steps[..1]), Exec(w, steps[..2]), Exec(w, steps));
               && id in torn.sessions && torn.sessions[id].file == Torn && ProbeFindsFlock(torn.sessions[id])
               && id in written.sessions && written.sessions[id].file == Whole(status) && ProbeFindsFlock(written.sessions[id])
               && id in closed.sessions && closed.sessions[id].file == Whole(status) && !ProbeFindsFlock(closed.sessions[id])
  {
    var steps := Ending(id, status);
    var torn := Do(w, steps[0]);
    var written := Do(torn, steps[1]);
    One(w, steps[0]);
    Two(w, steps[..2]);
    assert steps[..2][2..] == [] && steps[..1] == [steps[0]] && steps[2..] == [steps[2]];
    Two(w, steps);
    One(written, steps[2]);
  }

  lemma One(w: World, step: Step)
    requires CanStep(w, step)
    ensures CanRun(w, [step]) && Exec(w, [step]) == Do(w, step)
  {
    assert [step][1..] == [] && CanRun(Do(w, step), []);
  }
}
