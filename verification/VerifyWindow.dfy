/** Verify-after-set: poll a port until it reflects a request, and judge what was seen. Both PoE
    drivers run this loop with their own notion of a match; this module says, without any loop
    state, which verdict a trace of polls deserves. */
module VerifyWindow {
  import opened Options

  const SETTLING := 35.0
  const VERIFY_TIMEOUT := 60.0
  const FROZEN_GRACE := 6.0

  /** What one snapshot means: a match, a reading that has not matched yet (possibly with the admin
      state already as requested), or a snapshot that could not be taken. */
  datatype View = Accepts | Waiting(reflected: bool) | Unreadable

  /** One round of the loop: the clock at the loop test, the snapshot with its digest, the clock
      after it. */
  datatype Poll = Poll(check: real, now: real, digest: (string, int), view: View)

  datatype Verdict = Reflected | Frozen | Unverified | Broken

  type Trace = nat -> Poll

  /** The clock never goes back and each round sleeps the interval. */
  ghost predicate Paced(t: Trace, started: real, interval: real) {
    started <= t(0).check && forall k: nat :: PacedAt(t, interval, k)
  }

  predicate PacedAt(t: Trace, interval: real, k: nat) {
    t(k).check <= t(k).now && t(k).now + interval <= t(k + 1).check
  }

  ghost predicate SameDigest(t: Trace, from: nat, k: nat) {
    forall j: nat | from <= j <= k :: t(j).digest == t(k).digest
  }

  /** Poll `m` shows the digest of the poll before it, past the settling time, and nothing changed
      from there to poll `k`. */
  ghost predicate FrozenFrom(t: Trace, started: real, m: nat, k: nat) {
    1 <= m <= k && SameDigest(t, m - 1, k) && t(m).now - started >= SETTLING
  }

  /** Up to poll `k` nothing matched and the requested admin state was never seen, and the frozen
      part past the settling time has outlasted the grace period. */
  ghost predicate FrozenAt(t: Trace, started: real, k: nat) {
    && (forall j: nat | j <= k :: t(j).view == Waiting(false))
    && exists m: nat | m < k :: FrozenFrom(t, started, m, k) && t(k).now - t(m).now > FROZEN_GRACE
  }

  ghost predicate Stops(t: Trace, started: real, k: nat) {
    t(k).view.Accepts? || t(k).view.Unreadable? || FrozenAt(t, started, k)
  }

  ghost predicate GoesOn(t: Trace, started: real, k: nat) {
    t(k).check < started + VERIFY_TIMEOUT && !Stops(t, started, k)
  }

  /** The loop ends at poll `k` with the verdict; an unverified end has no poll `k`. */
  ghost predicate Ends(t: Trace, started: real, verdict: Verdict, k: nat) {
    && (forall j: nat | j < k :: GoesOn(t, started, j))
    && match verdict
       case Reflected => t(k).check < started + VERIFY_TIMEOUT && t(k).view.Accepts?
       case Broken => t(k).check < started + VERIFY_TIMEOUT && t(k).view.Unreadable?
       case Frozen => t(k).check < started + VERIFY_TIMEOUT && FrozenAt(t, started, k)
       case Unverified => t(k).check >= started + VERIFY_TIMEOUT
  }

  function PollsMade(verdict: Verdict, k: nat): nat {
    if verdict.Unverified? then k else k + 1
  }

  lemma {:induction false} ClockGrows(t: Trace, started: real, interval: real, i: nat, k: nat)
    requires Paced(t, started, interval) && interval >= 0.0 && i <= k
    ensures t(i).now <= t(k).now
    ensures i < k ==> t(i).now + interval <= t(k).check
    decreases k
  {
    if i < k {
      ClockGrows(t, started, interval, i, k - 1);
      assert PacedAt(t, interval, k - 1) && PacedAt(t, interval, k);
    }
  }

  lemma {:induction false} ChecksGrow(t: Trace, started: real, interval: real, i: nat)
    requires Paced(t, started, interval) && interval >= 0.0
    ensures started + interval * i as real <= t(i).check
  {
    if i > 0 {
      ChecksGrow(t, started, interval, i - 1);
      assert PacedAt(t, interval, i - 1);
      assert interval * i as real == interval * (i - 1) as real + interval;
    }
  }

  /** The verdict is determined by what was seen. */
  lemma VerdictUnique(t: Trace, started: real, v: Verdict, k: nat, v': Verdict, k': nat)
    requires Ends(t, started, v, k) && Ends(t, started, v', k')
    ensures v == v' && k == k'
  {
    assert !GoesOn(t, started, k) && !GoesOn(t, started, k');
  }

  /** A frozen verdict is never reached within 41 seconds, never with the requested state seen, and
      always after more than six seconds of one unchanged reading past the settling time. */
  lemma FrozenIsSound(t: Trace, started: real, k: nat)
    requires Ends(t, started, Frozen, k)
    ensures t(k).now > started + 41.0
    ensures forall j: nat | j <= k :: t(j).view == Waiting(false)
    ensures exists m: nat :: FrozenSpan(t, started, m, k)
  {
    var m: nat :| m < k && FrozenFrom(t, started, m, k) && t(k).now - t(m).now > FROZEN_GRACE;
    forall j: nat | m - 1 <= j <= k
      ensures t(j).digest == t(k).digest
    {
    }
    assert FrozenSpan(t, started, m, k);
  }

  /** One unchanged reading from the poll before `m` to poll `k`, of which the part from `m` on lies past
      the 35th second and lasts more than six. */
  ghost predicate FrozenSpan(t: Trace, started: real, m: nat, k: nat) {
    && 1 <= m < k && (forall j: nat | m - 1 <= j <= k :: t(j).digest == t(k).digest)
    && t(m).now >= started + 35.0 && t(k).now - t(m).now > 6.0
  }

  /** The window is a minute: every poll begins within it, and a verification that ends unverified has
      used all of it. */
  lemma WindowIsAMinute(t: Trace, started: real, verdict: Verdict, k: nat)
    requires Ends(t, started, verdict, k)
    ensures forall j: nat | j < k :: t(j).check < started + 60.0
    ensures verdict == Unverified <==> t(k).check >= started + 60.0
  {
    forall j: nat | j < k
      ensures t(j).check < started + 60.0
    {
      assert GoesOn(t, started, j);
    }
  }

  /** The window bounds the number of polls: as many intervals as lie before poll `i` fit into it. */
  lemma PollsAreBounded(t: Trace, started: real, interval: real, verdict: Verdict, k: nat, i: nat)
    requires Paced(t, started, interval) && interval > 0.0
    requires Ends(t, started, verdict, k) && i < PollsMade(verdict, k)
    ensures interval * i as real < 60.0
  {
    LastCheck(t, started, verdict, k, i);
    PollBefore(t, started, interval, i);
  }

  lemma PollBefore(t: Trace, started: real, interval: real, i: nat)
    requires Paced(t, started, interval) && interval > 0.0
    requires t(i).check < started + 60.0
    ensures interval * i as real < 60.0
  {
    ChecksGrow(t, started, interval, i);
  }

  lemma LastCheck(t: Trace, started: real, verdict: Verdict, k: nat, i: nat)
    requires Ends(t, started, verdict, k) && i < PollsMade(verdict, k)
    ensures t(i).check < started + 60.0
  {
    assert i < k ==> GoesOn(t, started, i);
  }

  /** The first poll whose clock reaches a given time. */
  lemma {:induction false} FirstReaching(t: Trace, started: real, interval: real, time: real, i: nat) returns (n: nat)
    requires Paced(t, started, interval) && interval > 0.0
    requires i == 0 || t(i - 1).now < time
    ensures n >= i && t(n).now >= time && (n == 0 || t(n - 1).now < time)
    decreases ((time - started) / interval).Floor + 1 - i
  {
    if t(i).now >= time {
      n := i;
    } else {
      ChecksGrow(t, started, interval, i);
      assert PacedAt(t, interval, i);
      RoundsFit(i, interval, time - started);
      n := FirstReaching(t, started, interval, time, i + 1);
    }
  }

  lemma RoundsFit(i: nat, interval: real, length: real)
    requires interval > 0.0 && interval * i as real <= length
    ensures i <= (length / interval).Floor
  {
    var rounds := length / interval;
    assert rounds * interval == length;
    if rounds < i as real {
      Scale(rounds, i as real, interval);
    }
  }

  lemma Scale(x: real, y: real, factor: real)
    requires x < y && factor > 0.0
    ensures x * factor < y * factor
  {
  }

  /** Rounds take at most `d`, counting the one before the first reading. */
  ghost predicate Prompt(t: Trace, started: real, d: real) {
    t(0).now <= started + d && forall k: nat :: PromptAt(t, d, k)
  }

  predicate PromptAt(t: Trace, d: real, k: nat) {
    t(k + 1).now <= t(k).now + d
  }

  /** A switch that shows one unchanging, non-matching reading is judged frozen and not merely
      unverified, provided two rounds fit between the 41st second and the end of the window. */
  lemma FrozenIsComplete(t: Trace, started: real, interval: real, d: real, verdict: Verdict, k: nat)
    requires Paced(t, started, interval) && interval > 0.0
    requires Prompt(t, started, d) && 41.0 + 2.0 * d <= 60.0
    requires forall j: nat :: t(j).view == Waiting(false) && t(j).digest == t(0).digest
    requires Ends(t, started, verdict, k)
    ensures verdict == Frozen
  {
    assert PacedAt(t, interval, 0);
    var m := FirstReaching(t, started, interval, started + SETTLING, 0);
    assert PromptAt(t, d, m - 1);
    var n := FirstReaching(t, started, interval, t(m).now + FROZEN_GRACE, m + 1);
    assert PromptAt(t, d, n - 1);
    if t(n).now == t(m).now + FROZEN_GRACE {
      assert PacedAt(t, interval, n) && PacedAt(t, interval, n + 1) && PromptAt(t, d, n);
      n := n + 1;
    }
    assert FrozenFrom(t, started, m, n);
    assert FrozenAt(t, started, n) && t(n).now < started + VERIFY_TIMEOUT;
    assert !GoesOn(t, started, n);
    assert PacedAt(t, interval, k);
    if k < n {
      ClockGrows(t, started, interval, k, n);
    }
  }

  /** A lag that no switch is punished for: one interval more than the settling time whatever the
      rounds take, and one interval more than 41 seconds less one round when rounds take at most `d`. */
  ghost predicate Tolerated(t: Trace, started: real, interval: real, d: real, lag: real) {
    || lag <= 35.0 + interval
    || (Prompt(t, started, d) && lag + d <= 41.0 + interval)
  }

  /** A switch that reflects the request after a tolerated lag, and is polled at all between then and
      the end of the window, is never judged frozen and passes. */
  lemma LateReflectionPasses(t: Trace, started: real, interval: real, d: real, lag: real, j: nat, verdict: Verdict, k: nat)
    requires Paced(t, started, interval) && interval >= 0.0
    requires Tolerated(t, started, interval, d, lag)
    requires forall i: nat :: !t(i).view.Unreadable?
    requires forall i: nat | t(i).check >= started + lag :: t(i).view.Accepts?
    requires started + lag <= t(j).check < started + 60.0
    requires Ends(t, started, verdict, k)
    ensures verdict == Reflected
  {
    assert !GoesOn(t, started, j);
    assert PacedAt(t, interval, k);
    if verdict.Unverified? && k < j {
      ClockGrows(t, started, interval, k, j);
    }
    if k > 0 {
      assert PacedAt(t, interval, k - 1) && (Prompt(t, started, d) ==> PromptAt(t, d, k - 1));
    }
    if verdict.Frozen? {
      var m: nat :| m < k && FrozenFrom(t, started, m, k) && t(k).now - t(m).now > FROZEN_GRACE;
      ClockGrows(t, started, interval, m, k);
    }
  }

  // ----- the loop's `frozen_since` variable

  ghost predicate NoneFrozen(t: Trace, started: real, before: nat, k: nat) {
    forall m: nat | m < before :: !FrozenFrom(t, started, m, k)
  }

  /** The current reading, that of poll `k`, counts as frozen since poll `m` and not earlier. */
  ghost predicate FrozenSince(t: Trace, started: real, m: nat, k: nat, since: real) {
    FrozenFrom(t, started, m, k) && t(m).now == since && NoneFrozen(t, started, m, k)
  }

  ghost predicate HasFrozenSince(t: Trace, started: real, k: nat, since: real) {
    exists m: nat :: FrozenSince(t, started, m, k, since)
  }

  /** `since` after the polls before `n`: the clock of the first poll from which the current reading
      counts as frozen. */
  ghost predicate Tracks(t: Trace, started: real, n: nat, since: Option<real>) {
    match since
    case None => n > 0 ==> NoneFrozen(t, started, n, n - 1)
    case Some(time) => n > 0 && HasFrozenSince(t, started, n - 1, time)
  }

  lemma RunGrows(t: Trace, started: real, m: nat, n: nat)
    requires m < n
    ensures FrozenFrom(t, started, m, n) <==> FrozenFrom(t, started, m, n - 1) && t(n).digest == t(n - 1).digest
  {
    if FrozenFrom(t, started, m, n - 1) && t(n).digest == t(n - 1).digest {
      assert SameDigest(t, m - 1, n);
    }
  }

  /** Within the settling time, or after a change of reading, nothing counts as frozen. */
  lemma TrackReset(t: Trace, started: real, interval: real, n: nat)
    requires Paced(t, started, interval) && interval >= 0.0
    requires t(n).now - started < SETTLING || n == 0 || t(n).digest != t(n - 1).digest
    ensures Tracks(t, started, n + 1, None) && !FrozenAt(t, started, n)
  {
    forall m: nat | m <= n
      ensures !FrozenFrom(t, started, m, n)
    {
      ClockGrows(t, started, interval, m, n);
    }
  }

  /** The first repeated reading past the settling time starts the frozen period. */
  lemma TrackBegin(t: Trace, started: real, n: nat)
    requires n > 0 && t(n).digest == t(n - 1).digest && t(n).now - started >= SETTLING
    requires Tracks(t, started, n, None)
    ensures Tracks(t, started, n + 1, Some(t(n).now)) && !FrozenAt(t, started, n)
  {
    forall m: nat | m < n
      ensures !FrozenFrom(t, started, m, n)
    {
      RunGrows(t, started, m, n);
    }
    assert SameDigest(t, n - 1, n);
    assert FrozenSince(t, started, n, n, t(n).now);
  }

  /** A further repetition either ends the loop or continues the period. */
  lemma TrackContinue(t: Trace, started: real, interval: real, n: nat, since: real)
    requires Paced(t, started, interval) && interval >= 0.0
    requires n > 0 && t(n).digest == t(n - 1).digest
    requires Tracks(t, started, n, Some(since))
    ensures Tracks(t, started, n + 1, Some(since))
    ensures (forall j: nat | j <= n :: t(j).view == Waiting(false)) ==>
              (FrozenAt(t, started, n) <==> t(n).now - since > FROZEN_GRACE)
  {
    forall m: nat | m < n
      ensures FrozenFrom(t, started, m, n) <==> FrozenFrom(t, started, m, n - 1)
    {
      RunGrows(t, started, m, n);
    }
    var m: nat :| FrozenSince(t, started, m, n - 1, since);
    assert FrozenSince(t, started, m, n, since);
    forall m': nat | m' < n && FrozenFrom(t, started, m', n)
      ensures t(m').now >= since
    {
      ClockGrows(t, started, interval, m, m');
    }
  }

  /** What the loop does with `since` at poll `n`: forget it within the settling time or on a changed
      reading, set it on the first repetition, and otherwise compare it with the grace period. */
  lemma Track(t: Trace, started: real, interval: real, n: nat, since: Option<real>)
    requires Paced(t, started, interval) && interval >= 0.0
    requires Tracks(t, started, n, since)
    requires forall j: nat | j <= n :: t(j).view == Waiting(false)
    ensures var repeated := n > 0 && t(n).digest == t(n - 1).digest && t(n).now - started >= SETTLING;
            && (!repeated ==> Tracks(t, started, n + 1, None) && !FrozenAt(t, started, n))
            && (repeated && since.None? ==> Tracks(t, started, n + 1, Some(t(n).now)) && !FrozenAt(t, started, n))
            && (repeated && since.Some? ==> Tracks(t, started, n + 1, since))
            && (repeated && since.Some? ==> (FrozenAt(t, started, n) <==> t(n).now - since.value > FROZEN_GRACE))
  {
    if n == 0 || t(n).digest != t(n - 1).digest || t(n).now - started < SETTLING {
      TrackReset(t, started, interval, n);
    } else if since.None? {
      TrackBegin(t, started, n);
    } else {
      TrackContinue(t, started, interval, n, since.value);
    }
  }

  /** What the loop variables say after the polls before `n`, none of which ended it. */
  ghost predicate Ongoing(t: Trace, started: real, n: nat, stateSeen: bool, since: Option<real>, lastDigest: Option<(string, int)>) {
    && (forall j: nat | j < n :: GoesOn(t, started, j))
    && (stateSeen ==> exists j: nat :: j < n && t(j).view == Waiting(true))
    && (!stateSeen ==>
          && (forall j: nat | j < n :: t(j).view == Waiting(false))
          && lastDigest == (if n == 0 then None else Some(t(n - 1).digest))
          && Tracks(t, started, n, since))
  }

  lemma NotFrozenOnceSeen(t: Trace, started: real, n: nat)
    requires exists j: nat :: j <= n && t(j).view == Waiting(true)
    ensures !FrozenAt(t, started, n)
  {
  }

  /** After the admin state has been seen, a poll that is no match goes on waiting. */
  lemma OngoingSeen(t: Trace, started: real, n: nat, stateSeen: bool, since: Option<real>, lastDigest: Option<(string, int)>, since': Option<real>)
    requires Ongoing(t, started, n, stateSeen, since, lastDigest) && t(n).check < started + VERIFY_TIMEOUT
    requires t(n).view == Waiting(true) || (stateSeen && t(n).view == Waiting(false))
    ensures Ongoing(t, started, n + 1, true, since', lastDigest)
  {
    NotFrozenOnceSeen(t, started, n);
    assert GoesOn(t, started, n);
  }

  /** Before that, the poll is judged by the frozen period. */
  lemma OngoingPending(t: Trace, started: real, interval: real, n: nat, since: Option<real>, lastDigest: Option<(string, int)>)
    requires Paced(t, started, interval) && interval >= 0.0
    requires Ongoing(t, started, n, false, since, lastDigest) && t(n).check < started + VERIFY_TIMEOUT
    requires t(n).view == Waiting(false)
    ensures var repeated := Some(t(n).digest) == lastDigest && t(n).now - started >= SETTLING;
            && (!repeated ==> Ongoing(t, started, n + 1, false, None, Some(t(n).digest)))
            && (repeated && since.None? ==> Ongoing(t, started, n + 1, false, Some(t(n).now), Some(t(n).digest)))
            && (repeated && since.Some? && t(n).now - since.value > FROZEN_GRACE ==> FrozenAt(t, started, n))
            && (repeated && since.Some? && t(n).now - since.value <= FROZEN_GRACE ==>
                  Ongoing(t, started, n + 1, false, since, Some(t(n).digest)))
  {
    Track(t, started, interval, n, since);
  }

  /** One poll, judged with the loop variables of the polls before it: the verdict if it ends the loop,
      and the variables after it. Once the requested admin state has been seen the loop only waits for
      the rest of the match, or for the end of the window. */
  method Judge(ghost t: Trace, poll: Poll, started: real, ghost interval: real, ghost n: nat, stateSeen: bool, frozenSince: Option<real>, lastDigest: Option<(string, int)>)
      returns (stop: Option<Verdict>, seen: bool, since: Option<real>, digest: Option<(string, int)>)
    requires Paced(t, started, interval) && interval >= 0.0 && poll == t(n)
    requires Ongoing(t, started, n, stateSeen, frozenSince, lastDigest) && t(n).check < started + VERIFY_TIMEOUT
    ensures stop.Some? ==> Ends(t, started, stop.value, n) && !stop.value.Unverified?
    ensures stop.None? ==> Ongoing(t, started, n + 1, seen, since, digest)
  {
    stop, seen, since, digest := None, stateSeen, frozenSince, lastDigest;
    if poll.view.Unreadable? {
      stop := Some(Broken);
    } else if poll.view.Accepts? {
      stop := Some(Reflected);
    } else if poll.view.reflected {
      OngoingSeen(t, started, n, stateSeen, frozenSince, lastDigest, None);
      seen, since := true, None;
    } else if !stateSeen {
      OngoingPending(t, started, interval, n, frozenSince, lastDigest);
      if poll.now - started < SETTLING {
        since := None;
      } else if Some(poll.digest) == lastDigest {
        if frozenSince == None {
          since := Some(poll.now);
        } else if poll.now - frozenSince.value > FROZEN_GRACE {
          stop := Some(Frozen);
        }
      } else {
        since := None;
      }
      digest := Some(poll.digest);
    } else {
      OngoingSeen(t, started, n, stateSeen, frozenSince, lastDigest, frozenSince);
    }
  }

  /** The window leaves room for another poll: a bound for the loop. */
  lemma RoundsLeft(t: Trace, started: real, interval: real, n: nat)
    requires Paced(t, started, interval) && interval > 0.0 && t(n).check < started + VERIFY_TIMEOUT
    ensures n <= (VERIFY_TIMEOUT / interval).Floor
  {
    ChecksGrow(t, started, interval, n);
    RoundsFit(n, interval, VERIFY_TIMEOUT);
  }

  /** The verification loop on snapshots that cost nothing to take. */
  method Watch(t: Trace, started: real, interval: real) returns (verdict: Verdict, n: nat)
    requires Paced(t, started, interval) && interval > 0.0
    ensures Ends(t, started, verdict, n)
  {
    var deadline := started + VERIFY_TIMEOUT;
    var frozenSince: Option<real> := None;
    var lastDigest: Option<(string, int)> := None;
    var stateSeen := false;
    n := 0;
    while t(n).check < deadline
      invariant Ongoing(t, started, n, stateSeen, frozenSince, lastDigest)
      decreases (VERIFY_TIMEOUT / interval).Floor + 1 - n
    {
      RoundsLeft(t, started, interval, n);
      var stop;
      stop, stateSeen, frozenSince, lastDigest := Judge(t, t(n), started, interval, n, stateSeen, frozenSince, lastDigest);
      if stop.Some? {
        return stop.value, n;
      }
      n := n + 1;
    }
    verdict := Unverified;
  }
}
