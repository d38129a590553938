/** Runs that show where the protocol stops short of what its texts suggest. */
module PcscdWitnesses {
  import opened Options
  import opened HolderRecord
  import opened PcscdDomain
  import opened PcscdSafety
  import opened PcscdHost

  lemma Do(s: State, step: Step) returns (t: State)
    requires Reachable(s) && Enabled(s, step)
    ensures t == Apply(s, step) && Reachable(t)
  {
    t := Apply(s, step);
    ReachStep(s, step);
  }

  /** A move that leaves kernel and file alone. */
  lemma Inner(s: State, id: nat, move: Move) returns (t: State)
    requires Reachable(s) && Enabled(s, Own(id, move))
    requires !move.Grant? && !move.Unlock? && !move.Truncate? && !move.WriteRecord? && !move.IssueRestart?
    ensures Reachable(t) && t == s.(actors := s.actors[id := Advance(s.actors[id], s.now, s.file, move)])
  {
    t := Do(s, Own(id, move));
  }

  lemma Begin(s: State, id: nat, role: Role, record: Items) returns (t: State)
    requires Reachable(s) && id !in s.actors
    ensures Reachable(t)
    ensures t == s.(actors := s.actors[id := Actor(id, Session(role), record, s.now, Polling(s.now), [])])
  {
    t := Do(s, StartSession(id, id, role, record, 0.0));
  }

  lemma Boot() returns (s: State)
    ensures Reachable(s) && s == State(0.0, map[], map[], "", None, {})
  {
    s := State(0.0, map[], map[], "", None, {});
    assert CanRun(s, []) && Exec(s, []) == s;
  }

  /** An exclusive session or restart takes the free lock and publishes its record. */
  lemma TakeExclusive(s: State, id: nat) returns (t: State)
    requires Reachable(s) && s.flocks == map[] && id in s.actors
    requires ModeOf(s.actors[id].program) == Exclusive && s.actors[id].pc.Polling? && s.actors[id].pc.wake <= s.now
    ensures Reachable(t) && t.flocks == map[id := Exclusive] && t.jobs == s.jobs && t.now == s.now
    ensures t.actors == s.actors[id := Log(s.actors[id], Acquired, Held)]
    ensures t.author == Some(id) && t.file == Render(s.actors[id].record)
  {
    t := Do(s, Own(id, Grant));
    t := Do(t, Own(id, Truncate));
    t := Do(t, Own(id, WriteRecord));
  }

  /** A leaving exclusive holder unlocks and closes. */
  lemma Leave(s: State, id: nat) returns (t: State)
    requires Reachable(s) && s.flocks == map[id := Exclusive] && id in s.actors && s.actors[id].pc.Leaving?
    ensures Reachable(t) && t.flocks == map[] && t.jobs == s.jobs && t.now == s.now
    ensures t.file == s.file && t.author == s.author
    ensures t.actors == s.actors[id := Log(s.actors[id], Released, Done(s.actors[id].pc.result))]
  {
    t := Do(s, Own(id, Unlock));
    t := Inner(t, id, Close);
  }

  /** A reader session starts and gets the free lock. */
  lemma ReaderJoins(s: State, id: nat) returns (t: State)
    requires Reachable(s) && s.flocks == map[] && id !in s.actors
    ensures Reachable(t) && t.flocks == map[id := Shared] && t.jobs == s.jobs && t.now == s.now
    ensures t.file == s.file && t.author == s.author
    ensures id in t.actors && t.actors[id].program == Session(Reader) && t.actors[id].pc == Held
    ensures t.actors == s.actors[id := t.actors[id]]
  {
    t := Begin(s, id, Reader, []);
    t := Do(t, Own(id, Grant));
    t := Inner(t, id, EnterShared);
  }

  /** Restart 1 of process 1, just after issuing its restart. */
  lemma Restarted() returns (t: State)
    ensures Reachable(t) && t.flocks == map[1 := Exclusive] && t.jobs == {1}
    ensures t.actors.Keys == {1} && t.actors[1].pid == 1 && t.actors[1].pc == Restarting
  {
    var s := ReadyToRestart();
    s := Inner(s, 1, LateChecked([]));
    t := Do(s, Own(1, IssueRestart));
  }

  lemma ReadyToRestart() returns (s: State)
    ensures Reachable(s) && s.flocks == map[1 := Exclusive] && s.jobs == {}
    ensures s.actors.Keys == {1} && s.actors[1].pid == 1 && s.actors[1].program == Restart && s.actors[1].pc == Held
  {
    s := Boot();
    s := Do(s, StartRestart(1, 1, []));
    s := Inner(s, 1, PreChecked([], 0.0));
    s := TakeExclusive(s, 1);
  }

  /** A reader session can overlap a running restart job: the caller of `restart` dies, its lock
      is freed, and `systemd` goes on restarting. */
  lemma CrashUncoversJob() returns (s: State)
    ensures Reachable(s) && 1 in s.jobs
    ensures 2 in s.actors && s.actors[2].program == Session(Reader) && s.actors[2].pc == Held
  {
    s := Restarted();
    s := Do(s, Crash(1));
    assert s.flocks == map[];
    s := ReaderJoins(s, 2);
  }

  /** The same happens without any death when systemctl times out: the exception releases the lock. */
  lemma TimeoutUncoversJob() returns (s: State)
    ensures Reachable(s) && 1 in s.jobs && s.actors.Keys == {1, 2} && s.actors[1].pc == Done(Raised)
    ensures s.actors[2].program == Session(Reader) && s.actors[2].pc == Held
  {
    s := Restarted();
    s := Inner(s, 1, SystemctlRaised);
    s := Leave(s, 1);
    s := ReaderJoins(s, 2);
  }

  /** A caller refused because readers hold the lock is shown the record of a disturbance that
      released it long ago: readers do not write the file and nobody clears it. */
  lemma RefusalNamesPastHolder(record: Items) returns (s: State)
    ensures Reachable(s) && s.flocks == map[2 := Shared] && s.actors.Keys == {1, 2, 3}
    ensures s.actors[1].record == record && s.actors[1].pc == Done(Ended)
    ensures s.actors[3].pc == Failed(Parse(Render(record)))
  {
    s := DisturbanceCameAndWent(record);
    s := ReaderJoins(s, 2);
    assert 2 in s.flocks;
    s := RefusedAtOnce(s, 3);
  }

  lemma DisturbanceCameAndWent(record: Items) returns (s: State)
    ensures Reachable(s) && s.flocks == map[] && s.actors.Keys == {1}
    ensures s.actors[1].record == record && s.actors[1].pc == Done(Ended) && s.file == Render(record)
  {
    s := Boot();
    s := Begin(s, 1, Disturbance, record);
    s := TakeExclusive(s, 1);
    s := Inner(s, 1, EndSession);
    s := Leave(s, 1);
  }

  lemma RefusedAtOnce(s: State, id: nat) returns (t: State)
    requires Reachable(s) && s.flocks != map[] && id !in s.actors
    ensures Reachable(t) && t.flocks == s.flocks && id in t.actors && t.actors[id].pc == Failed(Parse(s.file))
    ensures t.actors == s.actors[id := t.actors[id]]
  {
    t := Begin(s, id, Disturbance, []);
    t := Inner(t, id, Refuse);
    t := Inner(t, id, GiveUp);
    t := Inner(t, id, ReadFile);
  }

  // ----- every abandoned job can be overlapped

  lemma {:induction false} FreshNumber(used: set<nat>) returns (n: nat)
    ensures forall x | x in used :: x < n
    decreases |used|
  {
    if used == {} {
      n := 0;
    } else {
      var x :| x in used;
      var m := FreshNumber(used - {x});
      n := if m > x then m else x + 1;
      assert forall y | y in used :: y == x || y in used - {x};
    }
  }

  /** From any reachable state, a run frees the domain for readers: the process of an exclusive holder dies. */
  lemma FreeForReaders(s: State) returns (t: State)
    requires Reachable(s)
    ensures Leads(s, t) && Reachable(t) && t.jobs == s.jobs
    ensures forall id | id in t.flocks :: t.flocks[id] == Shared
  {
    LeadsSelf(s);
    t := s;
    if x :| x in s.flocks && s.flocks[x] == Exclusive {
      ReachableInv(s);
      ExclusiveIsAlone(s, x);
      var step := Crash(s.actors[x].pid);
      LeadsStep(s, s, step);
      t := Do(s, step);
    }
  }

  /** A new reader gets a domain that only readers hold. */
  lemma ReaderJoinsReaders(s: State, id: nat) returns (t: State)
    requires Reachable(s) && id !in s.actors && forall other | other in s.flocks :: s.flocks[other] == Shared
    ensures Leads(s, t) && t.jobs == s.jobs
    ensures id in t.actors && t.actors[id].program == Session(Reader) && Holding(t.actors[id].pc)
  {
    LeadsSelf(s);
    var start := StartSession(id, id, Reader, [], 0.0);
    LeadsStep(s, s, start);
    var u := Do(s, start);
    LeadsStep(s, u, Own(id, Grant));
    t := Do(u, Own(id, Grant));
  }

  /** Every restart job whose caller no longer holds the lock can come to overlap a reader session: from
      every reachable state a run leads there while the job goes on. */
  lemma AbandonedJobCanBeOverlapped(s: State, job: nat)
    requires Reachable(s) && job in s.jobs && job in s.actors && !Holding(s.actors[job].pc)
    ensures exists t: State, reader: nat ::
              && Leads(s, t) && job in t.jobs
              && reader in t.actors && t.actors[reader].program == Session(Reader) && Holding(t.actors[reader].pc)
  {
    var free := FreeForReaders(s);
    var id := FreshNumber(free.actors.Keys);
    var t := ReaderJoinsReaders(free, id);
    LeadsThrough(s, free, t);
  }
}
