/** Board reservations: one entry per board, held by a project until it is released or its time to
    live has passed. Here every call is atomic; `ReservationRace` splits it. */
module Reservation {
  import opened Options

  datatype Entry = Entry(project: string, expires: real)

  predicate Live(entry: Entry, now: real) {
    entry.expires > now
  }

  /** What `reserve` finds: the board is free for the project, or somebody else holds it. */
  predicate MayTake(stored: Option<Entry>, project: string, now: real) {
    stored.Some? && Live(stored.value, now) ==> stored.value.project == project
  }

  datatype Reserved = Granted(entry: Entry) | Refused(holder: string) | Invalid

  datatype Release = Removed | Absent | NotHolder(holder: string)

  /** The stored reservation of one board. */
  class Store {
    var entry: Option<Entry>

    constructor ()
      ensures entry == None
    {
      entry := None;
    }

    method Reserve(serial: string, project: string, ttl: int, now: real) returns (result: Reserved)
      modifies this
      ensures result == ReserveResult(old(entry), serial, project, ttl, now)
      ensures entry == if result.Granted? then Some(result.entry) else old(entry)
    {
      if serial == "" || project == "" {
        return Invalid;
      }
      if entry.Some? {
        if entry.value.expires > now {
          var holder := entry.value.project;
          if holder == project {
            entry := Some(Entry(project, now + ttl as real));
            return Granted(entry.value);
          }
          return Refused(holder);
        }
      }
      entry := Some(Entry(project, now + ttl as real));
      return Granted(entry.value);
    }

    method Free(project: string) returns (result: Release)
      modifies this
      ensures result == ReleaseResult(old(entry), project)
      ensures entry == if result.Removed? then None else old(entry)
    {
      if entry == None {
        return Absent;
      }
      if entry.value.project != project {
        return NotHolder(entry.value.project);
      }
      entry := None;
      return Removed;
    }

    /** `reclaim_if_expired`: may another project take this reservation over? */
    method ReclaimIfExpired(project: string, now: real) returns (reclaimable: bool)
      ensures reclaimable <==> entry.Some? && entry.value.project != project && !Live(entry.value, now)
    {
      if entry == None || entry.value.project == project {
        return false;
      }
      return entry.value.expires <= now;
    }
  }

  function ReserveResult(stored: Option<Entry>, serial: string, project: string, ttl: int, now: real): Reserved {
    if serial == "" || project == "" then Invalid
    else if MayTake(stored, project, now) then Granted(Entry(project, now + ttl as real))
    else Refused(stored.value.project)
  }

  /** Who is granted a board: anybody when it has no entry or an expired one, and its holder; the entry runs
      out after the time asked for. Nobody is granted a board or a project without a name. */
  lemma GrantedExactly(stored: Option<Entry>, serial: string, project: string, ttl: int, now: real)
    ensures var result := ReserveResult(stored, serial, project, ttl, now);
            && (result == Invalid <==> serial == "" || project == "")
            && (result.Granted? <==> serial != "" && project != "" && (stored == None || stored.value.expires <= now || stored.value.project == project))
            && (result.Granted? ==> result.entry.project == project && result.entry.expires == now + ttl as real)
            && (result.Refused? ==> stored.Some? && result.holder == stored.value.project)
  {
  }

  function ReleaseResult(stored: Option<Entry>, project: string): Release {
    if stored == None then Absent
    else if stored.value.project != project then NotHolder(stored.value.project)
    else Removed
  }

  /** The context manager: reserve on entry, release on exit. */
  class BoardReservation {
    const store: Store
    const serial: string
    const project: string
    const ttl: int
    var entry: Option<Entry>

    constructor (store: Store, serial: string, project: string, ttl: int)
      ensures this.store == store && this.serial == serial && this.project == project && this.ttl == ttl && entry == None
    {
      this.store, this.serial, this.project, this.ttl := store, serial, project, ttl;
      entry := None;
    }

    /** Raises, and leaves everything as it was, when the board is not granted. */
    method Enter(now: real) returns (result: Reserved)
      modifies this`entry, store
      ensures result == ReserveResult(old(store.entry), serial, project, ttl, now)
      ensures result.Granted? ==> entry == Some(result.entry) == store.entry
      ensures !result.Granted? ==> entry == old(entry) && store.entry == old(store.entry)
    {
      result := store.Reserve(serial, project, ttl, now);
      if result.Granted? {
        entry := Some(result.entry);
      }
    }

    /** Never removes an entry of another project: it raises instead. */
    method Exit() returns (result: Release)
      modifies store
      ensures old(store.entry).Some? && old(store.entry).value.project != project ==>
                store.entry == old(store.entry) && result == NotHolder(old(store.entry).value.project)
      ensures old(store.entry).Some? && old(store.entry).value.project == project ==> store.entry == None && result == Removed
      ensures old(store.entry) == None ==> store.entry == None && result == Absent
    {
      result := store.Free(project);
    }
  }

  // ----- runs

  /** `inside` are the sessions that have entered a reservation and not left it, each with the lease it
      was granted. */
  datatype State = State(now: real, entry: Option<Entry>, inside: map<nat, Entry>)

  datatype Step = Tick(dt: real) | Enter(session: nat, project: string, ttl: int) | Leave(session: nat, project: string)

  function Passed(step: Step): real {
    if step.Tick? && step.dt >= 0.0 then step.dt else 0.0
  }

  function Next(s: State, step: Step): State {
    match step
    case Tick(_) => s.(now := s.now + Passed(step))
    case Enter(session, project, ttl) =>
      (match ReserveResult(s.entry, "board", project, ttl, s.now)
       case Granted(entry) => s.(entry := Some(entry), inside := s.inside[session := entry])
       case _ => s)
    case Leave(session, project) =>
      s.(entry := if ReleaseResult(s.entry, project).Removed? then None else s.entry, inside := s.inside - {session})
  }

  function Exec(s: State, steps: seq<Step>): State {
    if steps == [] then s else Next(Exec(s, steps[..|steps| - 1]), steps[|steps| - 1])
  }

  /** The time after some steps. */
  function Clock(now: real, steps: seq<Step>): real {
    if steps == [] then now else Clock(now, steps[..|steps| - 1]) + Passed(steps[|steps| - 1])
  }

  /** When the latest lease of the project runs out: the given one, or that of its last entry. */
  function LeaseAt(expires: real, now: real, steps: seq<Step>, project: string): real {
    if steps == [] then expires
    else
      var (init, last) := (steps[..|steps| - 1], steps[|steps| - 1]);
      if last.Enter? && last.project == project then Clock(now, init) + last.ttl as real else LeaseAt(expires, now, init, project)
  }

  /** The project holds the board: everybody else is refused. */
  predicate HeldBy(s: State, project: string) {
    s.entry.Some? && s.entry.value.project == project && Live(s.entry.value, s.now)
  }

  ghost predicate HeldThroughout(s: State, steps: seq<Step>, project: string) {
    forall k: nat | k <= |steps| :: HeldBy(Exec(s, steps[..k]), project)
  }

  ghost predicate NobodyLeaves(steps: seq<Step>, project: string) {
    forall i | 0 <= i < |steps| :: !(steps[i].Leave? && steps[i].project == project)
  }

  ghost predicate NeverExpires(expires: real, now: real, steps: seq<Step>, project: string) {
    forall k: nat | k <= |steps| :: Clock(now, steps[..k]) < LeaseAt(expires, now, steps[..k], project)
  }

  lemma {:induction false} ClockIs(s: State, steps: seq<Step>)
    ensures Exec(s, steps).now == Clock(s.now, steps)
  {
    if steps != [] {
      ClockIs(s, steps[..|steps| - 1]);
    }
  }

  /** While a project holds the board and none of its sessions leaves, the entry is its latest lease: no
      step of another project, and no step of the clock, changes it. */
  lemma LeaseStep(s: State, step: Step, project: string)
    requires project != "" && HeldBy(s, project) && !(step.Leave? && step.project == project)
    ensures Next(s, step).entry ==
            if step.Enter? && step.project == project then Some(Entry(project, s.now + step.ttl as real)) else s.entry
  {
  }

  lemma Prefixes(steps: seq<Step>, k: nat)
    requires steps != [] && k <= |steps| - 1
    ensures steps[..|steps| - 1][..k] == steps[..k]
  {
  }

  /** A lease holds: over every run in which no session of its project leaves and its latest lease has not
      expired at any time, refreshes included, the entry is that latest lease and everybody else is
      refused. */
  lemma {:induction false} LeaseHolds(s: State, steps: seq<Step>, project: string)
    requires project != "" && HeldBy(s, project)
    requires NobodyLeaves(steps, project) && NeverExpires(s.entry.value.expires, s.now, steps, project)
    ensures Exec(s, steps).entry == Some(Entry(project, LeaseAt(s.entry.value.expires, s.now, steps, project)))
    ensures HeldBy(Exec(s, steps), project)
    ensures forall other, ttl | other != "" && other != project ::
              ReserveResult(Exec(s, steps).entry, "board", other, ttl, Exec(s, steps).now) == Refused(project)
  {
    ClockIs(s, steps);
    assert steps[..|steps|] == steps;
    if steps != [] {
      var init := steps[..|steps| - 1];
      forall k: nat | k <= |init|
        ensures Clock(s.now, init[..k]) < LeaseAt(s.entry.value.expires, s.now, init[..k], project)
      {
        Prefixes(steps, k);
      }
      LeaseHolds(s, init, project);
      ClockIs(s, init);
      LeaseStep(Exec(s, init), steps[|steps| - 1], project);
    }
  }

  lemma HeldOnPrefix(s: State, steps: seq<Step>, project: string)
    requires steps != [] && HeldThroughout(s, steps, project)
    ensures HeldThroughout(s, steps[..|steps| - 1], project)
  {
    var init := steps[..|steps| - 1];
    forall k: nat | k <= |init|
      ensures HeldBy(Exec(s, init[..k]), project)
    {
      Prefixes(steps, k);
    }
  }

  lemma {:induction false} HeldMeansSafe(s: State, steps: seq<Step>, project: string)
    requires project != "" && HeldThroughout(s, steps, project) && HeldBy(s, project)
    ensures NobodyLeaves(steps, project) && NeverExpires(s.entry.value.expires, s.now, steps, project)
    decreases |steps|
  {
    var expires := s.entry.value.expires;
    if steps == [] {
      assert steps[..0] == [];
    } else {
      var (init, last) := (steps[..|steps| - 1], steps[|steps| - 1]);
      HeldOnPrefix(s, steps, project);
      HeldMeansSafe(s, init, project);
      LeaseHolds(s, init, project);
      ClockIs(s, init);
      ClockIs(s, steps);
      assert steps[..|steps|] == steps && HeldBy(Exec(s, steps), project);
      if last.Leave? && last.project == project {
        assert false;
      }
      LeaseStep(Exec(s, init), last, project);
      forall k: nat | k <= |steps|
        ensures Clock(s.now, steps[..k]) < LeaseAt(expires, s.now, steps[..k], project)
      {
        if k < |steps| {
          Prefixes(steps, k);
          assert Clock(s.now, init[..k]) < LeaseAt(expires, s.now, init[..k], project);
        }
      }
    }
  }

  /** A project keeps the board over a whole run if and only if none of its sessions leaves and its latest
      lease never runs out. */
  lemma HeldExactlyWhileSafe(s: State, steps: seq<Step>, project: string)
    requires project != "" && HeldBy(s, project)
    ensures HeldThroughout(s, steps, project) <==>
            NobodyLeaves(steps, project) && NeverExpires(s.entry.value.expires, s.now, steps, project)
  {
    if HeldThroughout(s, steps, project) {
      HeldMeansSafe(s, steps, project);
    } else if NobodyLeaves(steps, project) && NeverExpires(s.entry.value.expires, s.now, steps, project) {
      forall k: nat | k <= |steps|
        ensures HeldBy(Exec(s, steps[..k]), project)
      {
        SafeOnPrefix(s.entry.value.expires, s.now, steps, k, project);
        LeaseHolds(s, steps[..k], project);
      }
    }
  }

  lemma SafeOnPrefix(expires: real, now: real, steps: seq<Step>, k: nat, project: string)
    requires k <= |steps| && NobodyLeaves(steps, project) && NeverExpires(expires, now, steps, project)
    ensures NobodyLeaves(steps[..k], project) && NeverExpires(expires, now, steps[..k], project)
  {
    forall j: nat | j <= k
      ensures Clock(now, steps[..k][..j]) < LeaseAt(expires, now, steps[..k][..j], project)
    {
      assert steps[..k][..j] == steps[..j];
    }
  }

  ghost predicate NoStepOf(steps: seq<Step>, session: nat) {
    forall i | 0 <= i < |steps| :: steps[i].Tick? || steps[i].session != session
  }

  lemma {:induction false} StaysInside(s: State, steps: seq<Step>, session: nat)
    requires session in s.inside && NoStepOf(steps, session)
    ensures session in Exec(s, steps).inside && Exec(s, steps).inside[session] == s.inside[session]
  {
    if steps != [] {
      StaysInside(s, steps[..|steps| - 1], session);
    }
  }

  /** What a session can rely on. It stays inside with its own lease, but its project keeps the board for
      it if and only if no other session of the project leaves and the latest lease of the project, which
      another session may have shortened, never runs out. */
  lemma SessionKeepsBoardExactly(s: State, steps: seq<Step>, session: nat)
    requires session in s.inside && NoStepOf(steps, session)
    requires s.inside[session].project != "" && HeldBy(s, s.inside[session].project)
    ensures session in Exec(s, steps).inside && Exec(s, steps).inside[session] == s.inside[session]
    ensures var project := s.inside[session].project;
            HeldThroughout(s, steps, project) <==>
            NobodyLeaves(steps, project) && NeverExpires(s.entry.value.expires, s.now, steps, project)
  {
    StaysInside(s, steps, session);
    HeldExactlyWhileSafe(s, steps, s.inside[session].project);
  }

  predicate By(step: Step, project: string) {
    (step.Enter? || step.Leave?) && step.project == project
  }

  ghost predicate NoneBy(steps: seq<Step>, project: string) {
    forall i | 0 <= i < |steps| :: !By(steps[i], project)
  }

  /** Without a step of its project, an entry of that project can only be the old one. */
  lemma {:induction false} OldEntryOrAnother(s: State, steps: seq<Step>, lease: Entry)
    requires s.entry == Some(lease) && NoneBy(steps, lease.project)
    ensures var entry := Exec(s, steps).entry; entry.Some? && entry.value.project == lease.project ==> entry == Some(lease)
  {
    if steps != [] {
      OldEntryOrAnother(s, steps[..|steps| - 1], lease);
    }
  }

  lemma {:induction false} UnbrokenUntil(s: State, steps: seq<Step>, lease: Entry)
    requires s.entry == Some(lease) && NoneBy(steps, lease.project) && Clock(s.now, steps) < lease.expires
    ensures Exec(s, steps).entry == Some(lease)
  {
    if steps != [] {
      var init := steps[..|steps| - 1];
      UnbrokenUntil(s, init, lease);
      ClockIs(s, init);
      assert !By(steps[|steps| - 1], lease.project);
    }
  }

  /** A crashed holder, of whom no further step comes, holds the board exactly until its lease expires;
      from then on every project that asks next gets it, unless one has got it already. */
  lemma CrashedHolderHoldsUntilExpiry(s: State, steps: seq<Step>, lease: Entry)
    requires s.entry == Some(lease) && NoneBy(steps, lease.project)
    ensures HeldBy(Exec(s, steps), lease.project) <==> Clock(s.now, steps) < lease.expires
    ensures var t := Exec(s, steps);
            Clock(s.now, steps) >= lease.expires && (t.entry == Some(lease) || t.entry == None) ==>
              forall session, project, ttl | project != "" ::
                Next(t, Enter(session, project, ttl)).entry == Some(Entry(project, Clock(s.now, steps) + ttl as real))
  {
    ClockIs(s, steps);
    OldEntryOrAnother(s, steps, lease);
    if Clock(s.now, steps) < lease.expires {
      UnbrokenUntil(s, steps, lease);
    }
  }

  /** After `k` steps the entry was still that of the project, after the next it is not, and a session of
      it was just leaving or its lease had expired. */
  ghost predicate LetGo(s: State, steps: seq<Step>, k: nat, project: string) {
    && k < |steps|
    && Exec(s, steps[..k]).entry.Some? && Exec(s, steps[..k]).entry.value.project == project
    && ((steps[k].Leave? && steps[k].project == project) || !Live(Exec(s, steps[..k]).entry.value, Exec(s, steps[..k]).now))
    && !(Exec(s, steps[..k + 1]).entry.Some? && Exec(s, steps[..k + 1]).entry.value.project == project)
  }

  /** A board changes hands only at a step at which a session of its holder leaves or the lease has expired. */
  lemma {:induction false} ChangesHandsOnlyWhenLetGo(s: State, steps: seq<Step>, project: string)
    requires s.entry.Some? && s.entry.value.project == project
    requires Exec(s, steps).entry.None? || Exec(s, steps).entry.value.project != project
    ensures exists k: nat :: LetGo(s, steps, k, project)
  {
    var n := |steps| - 1;
    var init := steps[..n];
    if Exec(s, init).entry.Some? && Exec(s, init).entry.value.project == project {
      assert steps[..n + 1] == steps;
      assert LetGo(s, steps, n, project);
    } else {
      ChangesHandsOnlyWhenLetGo(s, init, project);
      var k: nat :| LetGo(s, init, k, project);
      assert init[..k] == steps[..k] && init[..k + 1] == steps[..k + 1];
      assert LetGo(s, steps, k, project);
    }
  }

  lemma Four(s: State, steps: seq<Step>)
    requires |steps| == 4
    ensures Exec(s, steps) == Next(Next(Next(Next(s, steps[0]), steps[1]), steps[2]), steps[3])
  {
    assert steps[..3][..2] == steps[..2] && steps[..2][..1] == steps[..1] && steps[..1][..0] == [];
    assert Exec(s, steps[..1]) == Next(s, steps[0]);
    assert Exec(s, steps[..2]) == Next(Exec(s, steps[..1]), steps[1]);
    assert Exec(s, steps[..3]) == Next(Exec(s, steps[..2]), steps[2]);
  }

  const FREE := State(0.0, None, map[])

  /** Session 1 is inside with a live lease, and another project has the board: session 2 of its own
      project has left. */
  lemma SecondSessionGivesTheBoardAway(project: string, other: string, ttl: int)
    requires project != "" && other != "" && project != other && ttl > 0
    ensures var s := Exec(FREE, [Enter(1, project, ttl), Enter(2, project, ttl), Leave(2, project), Enter(3, other, ttl)]);
            && 1 in s.inside && s.inside[1].project == project && Live(s.inside[1], s.now)
            && HeldBy(s, other)
  {
    Four(FREE, [Enter(1, project, ttl), Enter(2, project, ttl), Leave(2, project), Enter(3, other, ttl)]);
  }

  /** The same without anybody leaving: session 2 has asked for a shorter time. */
  lemma ShorterRefreshGivesTheBoardAway(project: string, other: string, ttl: int)
    requires project != "" && other != "" && project != other && ttl > 1
    ensures var s := Exec(FREE, [Enter(1, project, ttl), Enter(2, project, 1), Tick(1.0), Enter(3, other, ttl)]);
            && 1 in s.inside && s.inside[1].project == project && Live(s.inside[1], s.now)
            && 2 in s.inside && HeldBy(s, other)
  {
    Four(FREE, [Enter(1, project, ttl), Enter(2, project, 1), Tick(1.0), Enter(3, other, ttl)]);
  }
}
