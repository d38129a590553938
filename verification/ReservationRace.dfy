/** `reserve` and `release` without any lock around them: reading the clock, reading the file, writing a
    temporary file piece by piece, replacing the board's file and unlinking it are separate steps of
    concurrent callers, and a caller may fail or die at any of them. */
module ReservationRace {
  import opened Options
  import opened Reservation

  /** JSON writing and parsing; text that is no JSON parses to nothing. */
  datatype Codec = Codec(json: Entry -> string, parse: string -> Option<Entry>)

  ghost predicate Faithful(c: Codec) {
    forall e: Entry :: ReadsBack(c, e)
  }

  predicate ReadsBack(c: Codec, e: Entry) {
    c.parse(c.json(e)) == Some(e)
  }

  datatype Program = Reserving(ttl: int) | Releasing

  /** `seen` is the version of the file that the caller judged. */
  datatype Pc =
    | Started
    | Clocked(now: real)
    | Cleared(now: real, seen: nat)     // may take the board
    | Writing(now: real, seen: nat)     // the temporary file is open
    | Written(now: real, seen: nat)     // the temporary file is closed
    | Replaced(entry: Entry)
    | Confirmed(seen: nat)              // release: may unlink
    | Unlinked
    | Rejected
    | Failed                            // an exception while writing
    | Dead

  datatype Caller = Caller(project: string, program: Program, pc: Pc)

  /** `version` counts the changes of the board's file; `temps` are the temporary files. */
  datatype World = World(codec: Codec, now: real, file: Option<string>, version: nat, temps: map<nat, string>, callers: map<nat, Caller>)

  datatype Move =
    | Pass(dt: real)
    | Call(id: nat, project: string, program: Program)
    | ReadClock(id: nat)
    | ReadEntry(id: nat)
    | CreateTemp(id: nat)
    | Append(id: nat, count: nat)       // the next piece of the text reaches the temporary file
    | CloseTemp(id: nat)
    | Replace(id: nat)
    | Fail(id: nat)
    | ReadForRelease(id: nat)
    | Unlink(id: nat)
    | Die(id: nat)

  /** What a reader makes of the board's file: an unreadable one counts as none. */
  function OnBoard(w: World): Option<Entry> {
    if w.file.Some? then w.codec.parse(w.file.value) else None
  }

  /** The entry that a caller writes. */
  function Intended(c: Caller, now: real): Entry {
    Entry(c.project, now + if c.program.Reserving? then c.program.ttl as real else 0.0)
  }

  function TextOf(w: World, c: Caller, now: real): string {
    w.codec.json(Intended(c, now))
  }

  predicate Over(pc: Pc) {
    pc.Replaced? || pc.Unlinked? || pc.Rejected? || pc.Failed? || pc.Dead?
  }

  predicate Enabled(w: World, move: Move) {
    match move
    case Pass(dt) => dt >= 0.0
    case Call(id, project, _) => id !in w.callers && id !in w.temps && project != ""
    case ReadClock(id) => id in w.callers && w.callers[id].pc.Started? && w.callers[id].program.Reserving?
    case ReadEntry(id) => id in w.callers && w.callers[id].pc.Clocked?
    case CreateTemp(id) => id in w.callers && w.callers[id].pc.Cleared?
    case Append(id, count) =>
      && id in w.callers && w.callers[id].pc.Writing? && id in w.temps
      && |w.temps[id]| + count <= |TextOf(w, w.callers[id], w.callers[id].pc.now)|
    case CloseTemp(id) =>
      && id in w.callers && w.callers[id].pc.Writing? && id in w.temps
      && |w.temps[id]| == |TextOf(w, w.callers[id], w.callers[id].pc.now)|
    case Replace(id) => id in w.callers && w.callers[id].pc.Written? && id in w.temps
    case Fail(id) => id in w.callers && (w.callers[id].pc.Writing? || w.callers[id].pc.Written?)
    case ReadForRelease(id) => id in w.callers && w.callers[id].pc.Started? && w.callers[id].program.Releasing?
    case Unlink(id) => id in w.callers && w.callers[id].pc.Confirmed?
    case Die(id) => id in w.callers && !Over(w.callers[id].pc)
  }

  function Go(w: World, id: nat, pc: Pc): World
    requires id in w.callers
  {
    w.(callers := w.callers[id := w.callers[id].(pc := pc)])
  }

  function Apply(w: World, move: Move): World
    requires Enabled(w, move)
  {
    match move
    case Pass(dt) => w.(now := w.now + dt)
    case Call(id, project, program) => w.(callers := w.callers[id := Caller(project, program, Started)])
    case ReadClock(id) => Go(w, id, Clocked(w.now))
    case ReadEntry(id) =>
      var c := w.callers[id];
      Go(w, id, if MayTake(OnBoard(w), c.project, c.pc.now) then Cleared(c.pc.now, w.version) else Rejected)
    case CreateTemp(id) => Go(w, id, Writing(w.callers[id].pc.now, w.callers[id].pc.seen)).(temps := w.temps[id := ""])
    case Append(id, count) => w.(temps := w.temps[id := TextOf(w, w.callers[id], w.callers[id].pc.now)[..|w.temps[id]| + count]])
    case CloseTemp(id) => Go(w, id, Written(w.callers[id].pc.now, w.callers[id].pc.seen))
    case Replace(id) =>
      var c := w.callers[id];
      Go(w, id, Replaced(Intended(c, c.pc.now))).(file := Some(w.temps[id]), version := w.version + 1, temps := w.temps - {id})
    case Fail(id) => Go(w, id, Failed).(temps := w.temps - {id})
    case ReadForRelease(id) => Go(w, id, if MayUnlink(w, w.callers[id].project) then Confirmed(w.version) else Rejected)
    case Unlink(id) => Go(w, id, Unlinked).(file := None, version := w.version + 1)
    case Die(id) => Go(w, id, Dead)
  }

  /** `release` unlinks an entry of its own project, and an unreadable file. */
  predicate MayUnlink(w: World, project: string) {
    w.file.Some? && (OnBoard(w).Some? ==> OnBoard(w).value.project == project)
  }

  predicate CanRun(w: World, moves: seq<Move>)
    decreases moves
  {
    moves == [] || (Enabled(w, moves[0]) && CanRun(Apply(w, moves[0]), moves[1..]))
  }

  function Exec(w: World, moves: seq<Move>): World
    requires CanRun(w, moves)
    decreases moves
  {
    if moves == [] then w else Exec(Apply(w, moves[0]), moves[1..])
  }

  // ----- the invariant

  /** What a caller that has judged the file knows about it now. */
  predicate Knows(w: World, c: Caller) {
    match c.pc
    case Clocked(now) => now <= w.now
    case Cleared(now, seen) => StillMayTake(w, c.project, now, seen)
    case Writing(now, seen) => StillMayTake(w, c.project, now, seen)
    case Written(now, seen) => StillMayTake(w, c.project, now, seen)
    case Confirmed(seen) => seen <= w.version && (seen == w.version ==> MayUnlink(w, c.project))
    case _ => true
  }

  predicate StillMayTake(w: World, project: string, now: real, seen: nat) {
    now <= w.now && seen <= w.version && (seen == w.version ==> MayTake(OnBoard(w), project, now))
  }

  /** A temporary file holds a first part of its text while it is written, and all of it when closed. */
  predicate TempFits(w: World, id: nat, c: Caller) {
    match c.pc
    case Writing(now, _) => id in w.temps && w.temps[id] <= TextOf(w, c, now)
    case Written(now, _) => id in w.temps && w.temps[id] == TextOf(w, c, now)
    case _ => true
  }

  /** Some caller has put exactly the text of its own entry on the board. */
  ghost predicate PutBy(w: World, text: string) {
    exists id :: id in w.callers && w.callers[id].pc.Replaced? && Whole(w, w.callers[id], text)
  }

  predicate Whole(w: World, c: Caller, text: string)
    requires c.pc.Replaced?
  {
    text == w.codec.json(c.pc.entry) && c.pc.entry.project == c.project
  }

  ghost predicate KnowInv(w: World) {
    forall id | id in w.callers :: Knows(w, w.callers[id])
  }

  ghost predicate TempInv(w: World) {
    forall id | id in w.callers :: TempFits(w, id, w.callers[id])
  }

  ghost predicate FileInv(w: World, first: Option<string>) {
    w.file.Some? && w.file != first ==> PutBy(w, w.file.value)
  }

  lemma KnowStep(w: World, move: Move)
    requires KnowInv(w) && Enabled(w, move)
    ensures KnowInv(Apply(w, move))
  {
    var v := Apply(w, move);
    forall id | id in v.callers
      ensures Knows(v, v.callers[id])
    {
      if id in w.callers {
        assert Knows(w, w.callers[id]);
      }
    }
  }

  lemma TempStep(w: World, move: Move)
    requires TempInv(w) && Enabled(w, move)
    ensures TempInv(Apply(w, move))
  {
    var v := Apply(w, move);
    forall id | id in v.callers
      ensures TempFits(v, id, v.callers[id])
    {
      if id in w.callers {
        assert TempFits(w, id, w.callers[id]);
      }
    }
  }

  lemma FileStep(w: World, first: Option<string>, move: Move)
    requires TempInv(w) && FileInv(w, first) && Enabled(w, move)
    ensures FileInv(Apply(w, move), first)
  {
    var v := Apply(w, move);
    if v.file.Some? && v.file != first {
      if move.Replace? {
        assert TempFits(w, move.id, w.callers[move.id]);
        assert Whole(v, v.callers[move.id], v.file.value);
      } else {
        var id :| id in w.callers && w.callers[id].pc.Replaced? && Whole(w, w.callers[id], w.file.value);
        assert v.callers[id] == w.callers[id] && Whole(v, v.callers[id], v.file.value);
      }
    }
  }

  lemma {:induction false} InvRun(w: World, first: Option<string>, moves: seq<Move>)
    requires KnowInv(w) && TempInv(w) && FileInv(w, first) && CanRun(w, moves)
    ensures var v := Exec(w, moves); KnowInv(v) && TempInv(v) && FileInv(v, first) && v.codec == w.codec
    decreases moves
  {
    if moves != [] {
      KnowStep(w, moves[0]);
      TempStep(w, moves[0]);
      FileStep(w, first, moves[0]);
      InvRun(Apply(w, moves[0]), first, moves[1..]);
    }
  }

  /** Nobody ever reads a partial entry: whatever temporary files are lying about, and whoever died or
      failed, the board's file is absent, or as it was at first, or the whole text of one caller's own
      entry, which parses to that entry. */
  lemma FileIsOneWhole(w: World, moves: seq<Move>)
    requires w.callers == map[] && Faithful(w.codec) && CanRun(w, moves)
    ensures var v := Exec(w, moves);
            v.file.Some? && v.file != w.file ==>
              && PutBy(v, v.file.value)
              && exists id :: id in v.callers && v.callers[id].pc.Replaced? && OnBoard(v) == Some(v.callers[id].pc.entry)
  {
    InvRun(w, w.file, moves);
    var v := Exec(w, moves);
    if v.file.Some? && v.file != w.file {
      var id :| id in v.callers && v.callers[id].pc.Replaced? && Whole(v, v.callers[id], v.file.value);
      assert ReadsBack(v.codec, v.callers[id].pc.entry);
    }
  }

  /** A caller overwrites a live entry of another project only if that entry landed in the file after
      the caller had read it; a caller whose reading is still current never does. */
  lemma OverwritesOnlyWhatLandedLater(w: World, moves: seq<Move>, id: nat)
    requires w.callers == map[] && CanRun(w, moves)
    requires Enabled(Exec(w, moves), Replace(id))
    ensures var v := Exec(w, moves); var c := v.callers[id];
            OnBoard(v).Some? && Live(OnBoard(v).value, v.now) && OnBoard(v).value.project != c.project ==> c.pc.seen < v.version
    ensures var v := Exec(w, moves); var c := v.callers[id];
            c.pc.seen == v.version ==> MayTake(OnBoard(v), c.project, v.now)
  {
    InvRun(w, w.file, moves);
    assert Knows(Exec(w, moves), Exec(w, moves).callers[id]);
  }

  /** A release removes an entry of another project only if that entry landed after its reading. */
  lemma UnlinksOnlyWhatLandedLater(w: World, moves: seq<Move>, id: nat)
    requires w.callers == map[] && CanRun(w, moves)
    requires Enabled(Exec(w, moves), Unlink(id))
    ensures var v := Exec(w, moves); var c := v.callers[id];
            OnBoard(v).Some? && OnBoard(v).value.project != c.project ==> c.pc.seen < v.version
  {
    InvRun(w, w.file, moves);
    assert Knows(Exec(w, moves), Exec(w, moves).callers[id]);
  }

  // ----- runs

  ghost predicate Leads(w: World, v: World) {
    exists moves: seq<Move> :: CanRun(w, moves) && Exec(w, moves) == v
  }

  lemma {:induction false} RunSnoc(w: World, moves: seq<Move>, move: Move)
    requires CanRun(w, moves) && Enabled(Exec(w, moves), move)
    ensures CanRun(w, moves + [move]) && Exec(w, moves + [move]) == Apply(Exec(w, moves), move)
    decreases moves
  {
    if moves == [] {
      assert [move][1..] == [] && CanRun(Apply(w, move), []);
    } else {
      assert (moves + [move])[1..] == moves[1..] + [move];
      RunSnoc(Apply(w, moves[0]), moves[1..], move);
    }
  }

  lemma Start(w: World)
    ensures Leads(w, w)
  {
    assert CanRun(w, []) && Exec(w, []) == w;
  }

  lemma Do(w: World, v: World, move: Move) returns (u: World)
    requires Leads(w, v) && Enabled(v, move)
    ensures u == Apply(v, move) && Leads(w, u)
  {
    u := Apply(v, move);
    var moves: seq<Move> :| CanRun(w, moves) && Exec(w, moves) == v;
    RunSnoc(w, moves, move);
  }

  function Empty(c: Codec, file: Option<string>): World {
    World(c, 0.0, file, 0, map[], map[])
  }

  /** A caller asks for the board and is cleared to take it. */
  lemma Clear(w: World, v: World, id: nat, project: string) returns (u: World)
    requires Leads(w, v) && id !in v.callers && id !in v.temps && project != ""
    requires MayTake(OnBoard(v), project, v.now)
    ensures Leads(w, u)
    ensures u == v.(callers := v.callers[id := Caller(project, Reserving(60), Cleared(v.now, v.version))])
  {
    u := Do(w, v, Call(id, project, Reserving(60)));
    u := Do(w, u, ReadClock(id));
    u := Do(w, u, ReadEntry(id));
  }

  /** A cleared caller writes its entry. */
  lemma Put(w: World, v: World, id: nat) returns (u: World)
    requires Leads(w, v) && id in v.callers && id !in v.temps && v.callers[id].pc.Cleared?
    ensures Leads(w, u)
    ensures var entry := Intended(v.callers[id], v.callers[id].pc.now);
            u == v.(file := Some(v.codec.json(entry)), version := v.version + 1,
                    callers := v.callers[id := v.callers[id].(pc := Replaced(entry))])
  {
    var entry := Intended(v.callers[id], v.callers[id].pc.now);
    u := Do(w, v, CreateTemp(id));
    u := Do(w, u, Append(id, |v.codec.json(entry)|));
    assert u.temps[id] == v.codec.json(entry);
    u := Do(w, u, CloseTemp(id));
    u := Do(w, u, Replace(id));
    assert v.temps[id := v.codec.json(entry)] - {id} == v.temps;
  }

  /** Two projects can both be granted the same board: each reads before the other writes. */
  lemma BothAreGranted(c: Codec, one: string, two: string) returns (v: World)
    requires one != "" && two != ""
    ensures Leads(Empty(c, None), v) && 1 in v.callers && 2 in v.callers
    ensures v.callers[1].pc == Replaced(Entry(one, 60.0)) && v.callers[2].pc == Replaced(Entry(two, 60.0)) && v.now == 0.0
  {
    var w := Empty(c, None);
    Start(w);
    v := Clear(w, w, 1, one);
    v := Clear(w, v, 2, two);
    v := Put(w, v, 1);
    v := Put(w, v, 2);
  }

  /** A release that reads its own entry, and unlinks it late, removes the live entry of the project that
      has meanwhile taken the board over. */
  lemma LateUnlinkRemovesAnother(c: Codec, one: string, two: string) returns (v: World, u: World)
    requires Faithful(c) && one != "" && two != "" && one != two
    ensures Leads(Empty(c, Some(c.json(Entry(one, 1.0)))), v) && Leads(Empty(c, Some(c.json(Entry(one, 1.0)))), u)
    ensures 1 in v.callers && v.callers[1].project == one && Enabled(v, Unlink(1)) && u == Apply(v, Unlink(1))
    ensures OnBoard(v) == Some(Entry(two, 61.0)) && Live(Entry(two, 61.0), v.now) && u.file == None
  {
    var w := Empty(c, Some(c.json(Entry(one, 1.0))));
    assert ReadsBack(c, Entry(one, 1.0)) && ReadsBack(c, Entry(two, 61.0));
    Start(w);
    v := Do(w, w, Call(1, one, Releasing));
    v := Do(w, v, ReadForRelease(1));
    v := Do(w, v, Pass(1.0));
    v := Clear(w, v, 2, two);
    v := Put(w, v, 2);
    u := Do(w, v, Unlink(1));
  }

  /** A partial temporary file can stay behind, of any length: its writer has died. */
  lemma DeathLeavesAPartialTemp(c: Codec, project: string, length: nat) returns (v: World)
    requires project != "" && length <= |c.json(Entry(project, 60.0))|
    ensures Leads(Empty(c, None), v) && v.file == None
    ensures 1 in v.callers && v.callers[1].pc == Dead && 1 in v.temps && v.temps[1] == c.json(Entry(project, 60.0))[..length]
  {
    var w := Empty(c, None);
    Start(w);
    v := Clear(w, w, 1, project);
    v := Do(w, v, CreateTemp(1));
    v := Do(w, v, Append(1, length));
    v := Do(w, v, Die(1));
  }
}
