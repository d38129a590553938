/** What every interleaving of readers, disturbances, restarts and crashes keeps. */
module PcscdSafety {
  import opened Options
  import opened HolderRecord
  import opened PcscdDomain

  ghost predicate Reachable(s: State) {
    exists s0: State, steps: seq<Step> :: Init(s0) && CanRun(s0, steps) && Exec(s0, steps) == s
  }

  lemma {:induction false} RunAppend(s: State, a: seq<Step>, b: seq<Step>)
    requires CanRun(s, a) && CanRun(Exec(s, a), b)
    ensures CanRun(s, a + b) && Exec(s, a + b) == Exec(Exec(s, a), b)
    decreases a
  {
    if a == [] {
      assert a + b == b;
    } else {
      assert (a + b)[0] == a[0] && (a + b)[1..] == a[1..] + b;
      RunAppend(Apply(s, a[0]), a[1..], b);
    }
  }

  lemma ReachStep(s: State, step: Step)
    requires Reachable(s) && Enabled(s, step)
    ensures Reachable(Apply(s, step))
  {
    var s0: State, steps: seq<Step> :| Init(s0) && CanRun(s0, steps) && Exec(s0, steps) == s;
    assert CanRun(Apply(s, step), []);
    assert CanRun(s, [step]) && Exec(s, [step]) == Apply(s, step);
    RunAppend(s0, steps, [step]);
  }

  lemma ReachableInv(s: State)
    requires Reachable(s)
    ensures Inv(s)
  {
    var s0: State, steps: seq<Step> :| Init(s0) && CanRun(s0, steps) && Exec(s0, steps) == s;
    InvRun(s0, steps);
  }

  /** An exclusive holder is the only holder, and the kernel and the programs agree on it. */
  lemma ExclusiveIsAlone(s: State, id: nat)
    requires Reachable(s)
    requires id in s.actors && ModeOf(s.actors[id].program) == Exclusive && Holding(s.actors[id].pc)
    ensures s.flocks == map[id := Exclusive]
    ensures forall other | other in s.actors && other != id :: !Holding(s.actors[other].pc)
  {
    ReachableInv(s);
  }

  /** From the return of an exclusive acquire until its release unlocks or its process dies,
      the lock file holds exactly its record, and a clean record is read back unchanged. */
  lemma PublishedRecordReadsBack(s: State, id: nat)
    requires Reachable(s)
    requires id in s.actors && Published(s.actors[id])
    ensures s.file == Render(s.actors[id].record)
    ensures DistinctKeys(s.actors[id].record) ==>
              (Parse(s.file) == ToMap(s.actors[id].record) <==> Clean(s.actors[id].record))
  {
    ReachableInv(s);
    if DistinctKeys(s.actors[id].record) {
      RoundTrip(s.actors[id].record);
    }
  }

  /** The part of a `restart` call that runs under the lock: the second check, the restart, the
      wait for PC/SC, up to the release. */
  predicate InWindow(a: Actor) {
    a.program.Restart? && (a.pc.Held? || a.pc.Cleared? || a.pc.Restarting? || a.pc.Probing? || a.pc.Leaving?)
  }

  /** No reader session, and no other disturbance, overlaps any part of the window. */
  lemma NothingOverlapsTheWindow(s: State, id: nat)
    requires Reachable(s)
    requires id in s.actors && InWindow(s.actors[id])
    ensures forall other | other in s.actors && other != id :: !Holding(s.actors[other].pc)
    ensures forall reader | reader in s.actors && s.actors[reader].program == Session(Reader) :: !Holding(s.actors[reader].pc)
  {
    ExclusiveIsAlone(s, id);
  }

  /** A `restart` call restarts at most once, after it got the lock and then saw no other holder;
      whoever has returned has released as often as it acquired. */
  lemma EveryCourseIsOrderly(s: State, id: nat)
    requires Reachable(s) && id in s.actors
    ensures Orderly(s.actors[id])
  {
    ReachableInv(s);
    var a := s.actors[id];
    if a.pc.Dead? {
      OrderlyHistory(a.program, a.pc.last, a.history);
    } else {
      OrderlyHistory(a.program, a.pc, a.history);
    }
  }

  predicate OnceAfterCheck(program: Program, h: seq<Event>) {
    && multiset(h)[RestartIssued] <= 1
    && (RestartIssued in h ==> program.Restart? && [Acquired, CheckedUnderLock([]), RestartIssued] <= h)
    && multiset(h)[Released] <= multiset(h)[Acquired] <= 1
  }

  predicate Orderly(a: Actor) {
    && OnceAfterCheck(a.program, a.history)
    && (a.pc.Failed? ==> a.history == [])
    && (a.pc.Done? ==> multiset(a.history)[Acquired] == multiset(a.history)[Released])
    && (a.pc.Done? ==> (RestartIssued in a.history <==> a.pc.result.Finished? || a.pc.result.Raised?))
  }

  lemma ShapeOrderly(program: Program, shape: Shape)
    requires shape.Issued? || shape.IssuedReleased? ==> program.Restart?
    ensures OnceAfterCheck(program, Events(shape))
    ensures RestartIssued in Events(shape) <==> shape.Issued? || shape.IssuedReleased?
    ensures (shape.Nothing? || shape.GotReleased? || shape.CheckedReleased? || shape.IssuedReleased?) ==>
              multiset(Events(shape))[Acquired] == multiset(Events(shape))[Released]
  {
  }

  lemma OrderlyHistory(program: Program, pc: Pc, h: seq<Event>)
    requires !pc.Dead? && HistoryFits(program, pc, h)
    ensures OnceAfterCheck(program, h)
    ensures pc.Done? ==> multiset(h)[Acquired] == multiset(h)[Released]
    ensures pc.Done? ==> (RestartIssued in h <==> pc.result.Finished? || pc.result.Raised?)
  {
    ShapeOrderly(program, ShapeOf(pc));
  }

  /** At the instant the restart is issued the caller alone holds the lock, and its last action was
      a check under that lock which named no other holder. */
  lemma RestartIssuedUnderLock(s: State, id: nat)
    requires Reachable(s) && Enabled(s, Own(id, IssueRestart))
    ensures s.flocks == map[id := Exclusive]
    ensures s.actors[id].history == [Acquired, CheckedUnderLock([])]
  {
    ReachableInv(s);
    ExclusiveIsAlone(s, id);
  }

  /** A restart job that `systemd` is still running overlaps a reader session only after the call
      that issued it has lost the lock: its process died, or systemctl timed out on it. */
  lemma JobOverlapsReaderOnlyWhenAbandoned(s: State, job: nat, reader: nat)
    requires Reachable(s) && job in s.jobs
    requires reader in s.actors && s.actors[reader].program == Session(Reader) && Holding(s.actors[reader].pc)
    ensures job in s.actors
    ensures var pc := s.actors[job].pc; pc.Dead? || pc == Unlocked(Raised) || pc == Done(Raised)
  {
    ReachableInv(s);
    if Holding(s.actors[job].pc) {
      ExclusiveIsAlone(s, job);
    }
  }

  /** `other` holds the domain in a way that excludes `id`; nobody who died or returned holds it. */
  predicate InTheWay(s: State, id: nat, other: nat) {
    && id in s.actors && other in s.actors && other != id && Holding(s.actors[other].pc)
    && (ModeOf(s.actors[id].program) == Exclusive || ModeOf(s.actors[other].program) == Exclusive)
  }

  /** In every reachable state, a caller that tries the lock is refused if and only if some other call is
      in its way that is alive and has not released: no lock is ever stale. */
  lemma RefusedExactlyByTheLiving(s: State, id: nat)
    requires Reachable(s) && id in s.actors && s.actors[id].pc.Polling? && s.actors[id].pc.wake <= s.now
    ensures Enabled(s, Own(id, Refuse)) <==> exists other :: InTheWay(s, id, other)
    ensures Enabled(s, Own(id, Grant)) <==> !Enabled(s, Own(id, Refuse))
  {
    ReachableInv(s);
    assert id !in s.flocks;
    if Enabled(s, Own(id, Refuse)) {
      if ModeOf(s.actors[id].program) == Exclusive {
        var other :| other in s.flocks;
        assert InTheWay(s, id, other);
      } else {
        var other :| other in s.flocks && s.flocks[other] != Shared;
        assert InTheWay(s, id, other);
      }
    }
    if other :| InTheWay(s, id, other) {
      assert other in s.flocks;
    }
  }

  /** When everyone in the way of a caller belongs to one process, the death of that process lets the
      caller in. */
  lemma DeathLetsWaitersIn(s: State, id: nat, pid: nat)
    requires Reachable(s) && id in s.actors && s.actors[id].pc.Polling? && s.actors[id].pc.wake <= s.now
    requires s.actors[id].pid != pid && forall other | InTheWay(s, id, other) :: s.actors[other].pid == pid
    ensures Enabled(Apply(s, Crash(pid)), Own(id, Grant))
  {
    var t := Apply(s, Crash(pid));
    ReachStep(s, Crash(pid));
    RefusedExactlyByTheLiving(t, id);
    if other :| InTheWay(t, id, other) {
      assert InTheWay(s, id, other);
    }
  }

  /** What a refused caller is told. The file names a current holder exactly when an exclusive
      acquire has returned and not been released; then it is that holder's record. */
  lemma ReportedHolder(s: State, id: nat)
    requires Reachable(s) && Enabled(s, Own(id, ReadFile))
    ensures (s.author.Some? && s.author.value in s.flocks) <==> exists holder :: holder in s.actors && Published(s.actors[holder])
    ensures s.author.Some? && s.author.value in s.actors ==> Parse(s.file) == Parse(Render(s.actors[s.author.value].record))
    ensures forall holder | holder in s.actors && Published(s.actors[holder]) :: s.author == Some(holder)
  {
    ReachableInv(s);
    if s.author.Some? && s.author.value in s.flocks {
      assert Published(s.actors[s.author.value]);
    }
  }

  /** The bench lock is the exclusive-only use of the same protocol. */
  lemma BenchLockExcludes(s: State, first: nat, second: nat)
    requires Reachable(s)
    requires forall id | id in s.actors :: s.actors[id].program == Session(Disturbance)
    requires first in s.actors && second in s.actors
    requires Holding(s.actors[first].pc) && Holding(s.actors[second].pc)
    ensures first == second
    ensures Published(s.actors[first]) ==> s.file == Render(s.actors[first].record)
  {
    ExclusiveIsAlone(s, first);
    if Published(s.actors[first]) {
      PublishedRecordReadsBack(s, first);
    }
  }
}
