# Verified model of the bench tools

A Dafny model of the parts of `tollgate_lab` that other sessions on a shared hardware bench rely on:
the locks around the smart-card daemon, the switching of PoE ports, package repacking, board
reservations, the session registry and the choice of a build to deploy. The statements hold for all
inputs, all interleavings or all behaviours of the far end, except where a row says that it is a run, a
switch or an archive that shows something: those are single examples, next to the exact condition.

Verify everything with `dafny verify dfyconfig.toml`.

## How the project is organised

| files | what they cover |
|---|---|
| `PcscdDomain`, `PcscdSafety`, `PcscdWitnesses` | the pcscd coupling domain as a labelled transition system: kernel flocks per open file, the lock file, one program counter per actor, restart jobs of systemd, crashes of processes; safety over every run; runs that show its limits |
| `PcscdHost`, `PcscdCtl`, `Labgrid` | the acquire loop, the release, `restart` and its exit code, as methods running on a host while all others act in between |
| `PcscdLaws` | what a call of `restart` promises, in terms of the two replies, systemctl, the probes and the seconds |
| `HolderRecord` | the holder record in a lock file |
| `VerifyWindow`, `ZyxelPoe`, `StockZyxelPoe` | verify-after-set: one way of judging polls, specified without loop state, and the two drivers that use it |
| `StockWeb`, `PoeToggle`, `ZyxelEncode` | the web session of the stock switch, its PoE toggle, its password encoder |
| `PoeEvidence`, `StockEvidence`, `StockHealthy` | what the end of a toggle, and of a set through the driver, says about the pages that the switch served, and how a switch that does what it is asked is served |
| `ArArchive`, `ArScan`, `ArLaws` | the ar parser, a printer it undoes, the repacking; when the parsing loop ends at all; and the layout and the resulting tar in bytes and texts |
| `LineGate` | the chunked line splitter and the telemetry gate |
| `Reservation`, `ReservationRace`, `SessionRegistry` | leases and liveness over runs |
| `Blossom`, `BlossomLaws` | the choice of a build among events, and what it means in the tags and contents of the events |
| `Text`, `Decimal`, `Options` | string and number operations of Python that the others use |

Two techniques recur. What the far end does (a switch, a coordinator, other processes, the clock) is an
arbitrary function or an arbitrary schedule, so a lemma about it covers every behaviour. And a loop of
the source is a method proved against a specification that mentions none of the loop's variables; what
the source promises is then proved of the specification.

`PcscdHost` and `PcscdCtl` connect the programs with the protocol: every method there leads from one
state of the transition system to another by a run (`Leads`), so the safety lemmas apply to what the
methods do. What all others do in between is an arbitrary schedule for each action, and every contract
there says what the whole host is afterwards, given those schedules. The ar format is that of the System V ABI edition 4.1, chapter 7, "Archive File"; the gzip
test is the ID1 and ID2 pair of section 2.3.1 of RFC 1952.

## Where the code differs from what is written about it

The model follows the code. Each difference is a lemma with the exact condition or a concrete run.

- A holder record is read back exactly when its keys and values are single stripped lines
  (`HolderRecord.RoundTrip`); a project name or reason with a line break is not.
- A refused caller can be shown a holder that released long ago: readers do not write the file and
  nobody clears it (`PcscdWitnesses.RefusalNamesPastHolder`).
- A reader session can run beside a restart that systemd is still carrying out, exactly when the caller
  of `restart` died or systemctl timed out on it: such a call no longer holds the lock
  (`PcscdSafety.JobOverlapsReaderOnlyWhenAbandoned`), and from every state with such a job a run leads to
  the overlap (`PcscdWitnesses.AbandonedJobCanBeOverlapped`).
- Exit code 2 is documented as an unstable daemon. A denial exits with 2 as well, without any probe
  (`PcscdCtl.ExitCodeMeaning`).
- The retry of a manage command is meant for a frozen snapshot. It is decided by the word DROPPED in the
  exception text, which the switch's own status or the port's name can contain
  (`ZyxelPoe.RetryCause`, `ZyxelPoe.TimeoutCanLookDropped`).
- An enable counts as done in the client when the port draws power, whatever admin state the row shows:
  it has shown the port enabled if and only if the switch serves no page with power on another state
  before one with both (`PoeEvidence.ToggleShowsEnabledExactly`, and a switch on which every enable
  passes with a disabled row in `PoeEvidence.EnablePassesDisabledRow`). The driver's own verification
  then insists on both (`StockEvidence.DoneMeansReflected`).
- The verification is documented to end unverified when an empty, disabled port is enabled. It is never
  reached: the toggle before it waits for power itself, and raises
  (`StockEvidence.EmptyPortFailsInTheToggle`, `StockEvidence.EmptyPortTimesOut`).
- The encoded password is said to have 321 characters. It has 321 minus the length of the password, one
  more for lengths from 100 to 198, and none from 321 on (`ZyxelEncode.EncodedLength`).
- An ar size field may be negative, and then the loop need not end: it ends if and only if it meets no
  position twice (`ArScan.LoopEndsExactly`); with sizes from -61 up, if and only if it meets neither -60
  nor -61 (`ArScan.EndsUnlessItStandsStill`). `ArScan.SomeArchiveNeverEnds` is such an archive.
- A reservation excludes projects, not sessions: a session keeps its board exactly as long as no other
  session of its project leaves and the latest lease of the project, which another session may have
  shortened, has not run out (`Reservation.SessionKeepsBoardExactly`, with two runs beside it).
- Two concurrent callers can both be granted a board (`ReservationRace.BothAreGranted`), and a release
  that is late can remove the entry of another project (`ReservationRace.LateUnlinkRemovesAnother`).
- LOST is said to mean that a session died without `end`. Taken in one step it means that, or an `end`
  with the very status "running" (`SessionRegistry.ReportExactly`); a death in the middle of a rewrite is
  not reported at all; and with the gap between reading and probing a session that ended properly, or a
  live one of more than seven days whose file was just removed, is reported LOST
  (`SessionRegistry.EndedInTheGapLooksLost`, `SessionRegistry.RemovedInTheGapLooksLost`).
- Builds in flight (kind 30078) are called a fallback. They compete with the published ones by time
  alone (`Blossom.NewerWinsAcrossKinds`).

## Model

| member | source | states |
|---|---|---|
| PcscdDomain.InvStep | tollgate_lab/hardware/pcscd_domain.py:76-156 | every step of any actor, systemd, the clock or a crash keeps: flocks and programs agree, an exclusive flock is alone, the file is the record of its author, every history is a proper course, an unfinished restart job belongs to a call that has not seen it finish |
| PcscdDomain.InvRun | tollgate_lab/hardware/pcscd_domain.py:76-156 | the invariant holds after every run from a state where it holds |
| PcscdSafety.ExclusiveIsAlone | tollgate_lab/hardware/pcscd_domain.py:84-95 | in every reachable state an exclusive holder is the only holder, for the kernel and for every program |
| PcscdSafety.PublishedRecordReadsBack | tollgate_lab/hardware/pcscd_domain.py:97-106 | from the return of an exclusive acquire until it unlocks or dies, the lock file is exactly its record, and parses to it if and only if the record is clean |
| PcscdSafety.NothingOverlapsTheWindow | tollgate_lab/pcscd_ctl.py:149-180 | no reader and no other disturbance holds the domain during any part of a restart's locked section, from the second check to the release |
| PcscdSafety.EveryCourseIsOrderly | tollgate_lab/pcscd_ctl.py:125-180 | over every run each call restarts at most once, only after acquiring and an empty check under the lock, and whoever has returned has released as often as acquired |
| PcscdSafety.RestartIssuedUnderLock | tollgate_lab/pcscd_ctl.py:153-166 | when a restart is issued, its caller alone holds the lock and its last action was a check that named nobody |
| PcscdSafety.JobOverlapsReaderOnlyWhenAbandoned | tollgate_lab/pcscd_ctl.py:60-67 | a restart job still running beside a reader was issued by a call whose process died or on which systemctl timed out |
| PcscdSafety.RefusedExactlyByTheLiving | tollgate_lab/hardware/pcscd_domain.py:87-95 | in every reachable state a caller that tries the lock is refused if and only if another call is in its way that is alive and has not released: no lock is ever stale |
| PcscdSafety.DeathLetsWaitersIn | tollgate_lab/hardware/pcscd_domain.py:84-90 | when everyone in a caller's way belongs to one process, the death of that process lets the caller in |
| PcscdSafety.ReportedHolder | tollgate_lab/hardware/pcscd_domain.py:91-94 | the file read by a refused caller names a current holder if and only if some exclusive acquire has returned and not released, and then it is that holder |
| PcscdSafety.BenchLockExcludes | tollgate_lab/hardware/bench_lock.py:79-136 | among bench lock users at most one holds the lock, and the file is its record once its acquire has returned |
| PcscdWitnesses.AbandonedJobCanBeOverlapped | tollgate_lab/pcscd_ctl.py:60-67 | from every reachable state with a restart job whose caller no longer holds the lock, a run leads to a reader session beside that very job |
| PcscdWitnesses.CrashUncoversJob | tollgate_lab/pcscd_ctl.py:164-180 | a run in which the caller dies and a reader joins while the restart is still running |
| PcscdWitnesses.TimeoutUncoversJob | tollgate_lab/pcscd_ctl.py:60-67 | the same without a death, by a timeout of systemctl |
| PcscdWitnesses.RefusalNamesPastHolder | tollgate_lab/hardware/pcscd_domain.py:91-94 | a run in which a caller refused because of a reader is shown a disturbance that has long released |
| PcscdHost.Acquire | tollgate_lab/hardware/pcscd_domain.py:76-106 | whatever the others do, host and outcome are those that the loop must end with: the tries before the last found the lock taken with time left, the last found it free and then the record is published, or found it taken at or past the deadline and then the caller is shown the parsed file; without patience after exactly one try; all of it a run of the protocol |
| PcscdHost.AcquireUnique | tollgate_lab/hardware/pcscd_domain.py:86-95 | host and schedules determine the number of tries, the outcome and the host |
| PcscdHost.RefusedExactly | tollgate_lab/hardware/pcscd_domain.py:86-95 | an acquire is refused if and only if no try up to its last found the lock free, and its last is the first at or past the deadline |
| PcscdHost.PcscdDomainLock.Release | tollgate_lab/hardware/pcscd_domain.py:140-150 | unlocks and closes exactly once; a second call changes nothing |
| PcscdCtl.Probe | tollgate_lab/pcscd_ctl.py:167-173 | result, number of probes and host are those that the answers and the delays of the others determine: it asks again exactly while the answer is unstable and time is left |
| PcscdCtl.WaitUnique | tollgate_lab/pcscd_ctl.py:167-173 | answers and delays determine one result and one number of probes |
| PcscdCtl.UnstableWasAsked | tollgate_lab/pcscd_ctl.py:167-173 | an unstable end means that the time is up and every probe said unstable, at least one whenever the first test was in time |
| PcscdCtl.UnderLock | tollgate_lab/pcscd_ctl.py:149-178 | result and host are those that the reply under the lock, systemctl, the probes and the delays determine: a late denial of the rows in that very reply, or a restart and the wait for its end |
| PcscdCtl.RestartPcscd | tollgate_lab/pcscd_ctl.py:125-180 | on denied, late denied, held, raised, unstable and stable paths, the call ends with the report and the host that the answers of the outside and the schedules of the others call for, without the lock, and with an orderly history |
| PcscdCtl.RestartUnique | tollgate_lab/pcscd_ctl.py:125-180 | the host at the start, the answers and the schedules determine the report and the whole host at the end |
| PcscdCtl.HeldExactly | tollgate_lab/pcscd_ctl.py:144-148 | a call raises that the lock is held if and only if no other lane was seen at first and no try, up to the first at or past the deadline, found the lock free |
| PcscdCtl.ExitCodeMeaning | tollgate_lab/pcscd_ctl.py:210-229 | exit 0 exactly for a restart with return code 0 seen stable; 0 and 4 imply a restart issued under the lock; a 2 was preceded by a restart exactly when the call finished, and every denial is a 2 |
| PcscdLaws.DeniedExactly | tollgate_lab/pcscd_ctl.py:133-143 | a call is denied at once if and only if the reply before the lock succeeded and has rows of other lanes, and then with exactly these rows |
| PcscdLaws.LateDeniedExactly | tollgate_lab/pcscd_ctl.py:153-164 | a call is denied late if and only if the first reply names nobody, the lock is granted, and the reply given under the lock succeeded and has rows of other lanes; then with exactly these rows |
| PcscdLaws.RestartsOnlyForNobody | tollgate_lab/pcscd_ctl.py:149-178 | a call that restarts was granted the lock, and both replies are unreachable, failed or have no row of another lane; it raises exactly for a systemctl or a probe that raises, and is stable exactly for a first answer "stable" in time |
| PcscdLaws.TriesAreTimed | tollgate_lab/hardware/pcscd_domain.py:86-95 | the deadline is the patience after the opening of the file, and a refused caller tries again half a second later, plus what others delay it |
| PcscdLaws.GivesUpOnTime | tollgate_lab/hardware/pcscd_domain.py:91-95 | a refused call gives up at its first refusal at or past the deadline, and is shown what it reads in the lock file |
| PcscdLaws.TwentyProbes | tollgate_lab/pcscd_ctl.py:167-173 | undelayed, twenty seconds of patience are twenty unstable answers, one second apart, and a stable one among them ends the wait |
| PcscdLaws.ExitCodes | tollgate_lab/pcscd_ctl.py:212-229 | every exit code if and only if its outcomes: 0, 1, 2, 3 and 4 |
| Labgrid.OtherHolders | tollgate_lab/pcscd_ctl.py:78-122 | the rows of other lanes in order, and nobody when the client cannot run or fails |
| Labgrid.SharedLane | tollgate_lab/pcscd_ctl.py:70-75 | project and place share a lane if and only if one stretch of three or more characters stands between delimiters in both names; symmetric |
| Labgrid.PiecesAreBlocks | tollgate_lab/pcscd_ctl.py:73-74 | splitting yields exactly the maximal stretches without delimiters |
| Labgrid.NobodyReported | tollgate_lab/pcscd_ctl.py:109-122 | a restart is not denied exactly when no row belongs to another lane |
| Labgrid.RowOfAnotherLane | tollgate_lab/pcscd_ctl.py:110-121 | a row with user, host and place, separated by any white space, belongs to another lane if and only if it is not the header and project and place have no stretch of three or more characters between delimiters in common |
| Labgrid.RowsExactly | tollgate_lab/pcscd_ctl.py:109-122 | a row is reported if and only if it is one of the kept lines without the white space at its end |
| HolderRecord.ReadHolder | tollgate_lab/hardware/pcscd_domain.py:64-73 | the loop returns the parsed file, and no holder for an unreadable one |
| HolderRecord.RoundTrip | tollgate_lab/hardware/bench_lock.py:45-56 | parsing a rendered record gives the same map if and only if its keys and values are clean |
| HolderRecord.HolderRoundTrip | tollgate_lab/hardware/pcscd_domain.py:53-61 | for the six fields of an acquisition this depends on the six texts alone, empty project and reason included |
| HolderRecord.HolderIsRead | tollgate_lab/hardware/pcscd_domain.py:53-73 | which of the six texts a reader finds under which key, with "-" for an empty project or reason, and no other key |
| HolderRecord.RecordText | tollgate_lab/hardware/pcscd_domain.py:101-101 | the record has a line for each item, key and value separated by a colon and a blank |
| HolderRecord.LineByLine | tollgate_lab/hardware/pcscd_domain.py:67-70 | for every text: a line without a colon says nothing, any other what stands stripped before and behind its first colon, unless a later line has the same key |
| Text.LinesEndAtBreaks | tollgate_lab/hardware/pcscd_domain.py:67-67 | a line ends at a line feed, a carriage return or both together, and what follows splits on its own |
| HolderRecord.ParsedIsClean | tollgate_lab/hardware/pcscd_domain.py:67-70 | whatever a file holds, what is read from it is clean, so unclean records cannot come back |
| VerifyWindow.Judge | tollgate_lab/drivers/stock_zyxel_poe.py:258-288 | one poll with the loop's `frozen_since`, `last_digest` and `state_seen`: it ends the loop with exactly the verdict that the trace alone deserves at this poll, or keeps the variables true of it |
| VerifyWindow.Watch | tollgate_lab/drivers/zyxel_poe.py:250-286 | the loop ends with the verdict that the trace alone deserves, at the poll it deserves it |
| VerifyWindow.VerdictUnique | tollgate_lab/drivers/zyxel_poe.py:243-286 | a trace deserves one verdict, at one poll |
| VerifyWindow.FrozenIsSound | tollgate_lab/drivers/zyxel_poe.py:260-277 | frozen only after 41 seconds, with no match and no requested admin state seen so far, and one digest unchanged for more than 6 seconds past the 35th |
| VerifyWindow.FrozenIsComplete | tollgate_lab/drivers/zyxel_poe.py:250-286 | an unchanging, non-matching reading is judged frozen and not unverified, for every round length d with 41 + 2d at most 60 |
| VerifyWindow.LateReflectionPasses | tollgate_lab/drivers/zyxel_poe.py:255-268 | a switch that reflects the request after any lag of at most 35 seconds and one interval, or with rounds of at most d any lag of at most 41 seconds and one interval less d, and is polled in time, is never judged frozen and passes |
| VerifyWindow.PollsAreBounded | tollgate_lab/drivers/zyxel_poe.py:255-281 | as many intervals as lie before any poll that is made fit into less than 60 seconds |
| VerifyWindow.WindowIsAMinute | tollgate_lab/drivers/zyxel_poe.py:251-282 | every poll but the last begins within 60 seconds, and a verification ends unverified if and only if the 60 seconds are over |
| VerifyWindow.Track | tollgate_lab/drivers/zyxel_poe.py:262-280 | the variable `frozen_since` is at every poll the clock of the first poll from which the current reading counts as frozen |
| ZyxelPoe.VerifyManage | tollgate_lab/drivers/zyxel_poe.py:243-286 | raises and returns exactly as the verdict on the snapshots says, with the last state it saw in the text of both failures |
| ZyxelPoe.Set | tollgate_lab/drivers/zyxel_poe.py:317-335 | at most two commands and all of them the same, "enable" or "disable" as asked, none for a protected port or a failing budget check, a second one only after a verification failure that looks dropped |
| ZyxelPoe.SuccessIsReflected | tollgate_lab/drivers/zyxel_poe.py:317-326 | a normal return means that the last snapshot of the last attempt is in the wanted class and not transient |
| ZyxelPoe.SuccessShowsThePort | tollgate_lab/drivers/zyxel_poe.py:86-103 | a normal return means that the port is none of the two protected ones and that the last status, in lower case, is one of the five that mean off, or for an enable none of these nor of the two transient ones |
| ZyxelPoe.FirstMatchEndsTheVerification | tollgate_lab/drivers/zyxel_poe.py:255-285 | the verification passes at the first snapshot that shows the port as asked, raises what the first failing snapshot raises, and after 60 seconds names the last status |
| ZyxelPoe.CommandErrorsAreRaised | tollgate_lab/drivers/zyxel_poe.py:322-330 | a command that fails itself is raised at once and never repeated; otherwise the last attempt decides |
| ZyxelPoe.ProtectedPortsAreLeftAlone | tollgate_lab/drivers/zyxel_poe.py:317-318 | the two protected ports are never sent a command |
| ZyxelPoe.DroppedMeansUnchanged | tollgate_lab/drivers/zyxel_poe.py:257-277 | a frozen verdict means more than 41 seconds, the wanted status never shown, and status and power unchanged for more than six seconds past the 35th |
| ZyxelPoe.UnchangedIsDropped | tollgate_lab/drivers/zyxel_poe.py:261-277 | a switch whose status and power do not change and do not show what was asked is judged frozen, for every round length d with 41 + 2d at most 60 |
| ZyxelPoe.HealthySwitchNeedsOneCommand | tollgate_lab/drivers/zyxel_poe.py:317-335 | a switch that reflects the request after a tolerated lag and is polled in time is served by exactly one command |
| ZyxelPoe.NotVerifiedLooksDropped | tollgate_lab/drivers/zyxel_poe.py:282-286 | a timeout looks dropped if and only if the port's name or the last status contains the word |
| ZyxelPoe.RetryCause | tollgate_lab/drivers/zyxel_poe.py:327-330 | a failed verification looks dropped exactly for the frozen verdict, or with the word in the port's name, the last status or the text of a switch error |
| ZyxelPoe.TimeoutCanLookDropped | tollgate_lab/drivers/zyxel_poe.py:327-330 | a switch that never freezes, on which every set that disables a port times out and sends a second command |
| ZyxelPoe.SnapshotsPerAttempt | tollgate_lab/drivers/zyxel_poe.py:105-112 | no verification takes more than 75 snapshots |
| StockWeb.Client.Fetch | tollgate_lab/hardware/zyxel_stock.py:160-181 | against any replies the mutual recursion terminates, sends exactly the specified requests, keeps `_in_login`, and keeps the right token, also when it raises |
| StockWeb.Client.Login | tollgate_lab/hardware/zyxel_stock.py:118-125 | the flag is false again after every login, failed ones included, and the token changes only on success |
| StockWeb.Client.LoginLocked | tollgate_lab/hardware/zyxel_stock.py:127-148 | the retry loop sends what the recursive specification of a login says |
| StockWeb.Client.PostCmd | tollgate_lab/hardware/zyxel_stock.py:186-195 | posts with the token held before the call; the page returned is the reply to the last request, a form with the same command and fields and the token that the client keeps, and is never a login page |
| StockWeb.Client.Get | tollgate_lab/hardware/zyxel_stock.py:183-184 | inside a login one plain request and no recursion; outside, the specified requests; the page returned is the reply to the last request, which asks for the very same page, and is never a login page |
| StockWeb.FetchIsBounded | tollgate_lab/hardware/zyxel_stock.py:163-195 | one call sends between one and eleven requests, whatever the switch answers |
| StockWeb.FetchReturnsWhatItAskedFor | tollgate_lab/hardware/zyxel_stock.py:163-181 | the first request is the one asked for; a page that is returned is the reply to that request repeated, for a form with another token and nothing else changed |
| StockWeb.UndisturbedFetch | tollgate_lab/hardware/zyxel_stock.py:163-165 | an ordinary page is returned after one request, and a network error raised |
| StockWeb.EvictedFetch | tollgate_lab/hardware/zyxel_stock.py:165-181 | an eviction is answered by one login; its error is raised with nothing else sent; after it the request is repeated once, and a second eviction raised as such |
| StockWeb.LoginAtOnce | tollgate_lab/hardware/zyxel_stock.py:137-158 | the requests of a login that goes well at once, with the identifier just issued, and its token from page 1, else 30, else 550 |
| StockWeb.LoginWithoutId | tollgate_lab/hardware/zyxel_stock.py:139-143 | an answer that is no identifier ends the login after one request |
| StockWeb.LoginRefused | tollgate_lab/hardware/zyxel_stock.py:137-148 | three refused checks, each with the identifier just issued, end the login |
| StockWeb.ElevenIsReached | tollgate_lab/hardware/zyxel_stock.py:137-181 | a switch for which a successful call takes eleven |
| StockWeb.LoginRunFacts | tollgate_lab/hardware/zyxel_stock.py:127-158 | a login sends at most two requests an attempt and three pages, no form, and every authorisation check carries the identifier issued just before; its token is the one on the last page received |
| StockWeb.RetriedFormIsFresh | tollgate_lab/hardware/zyxel_stock.py:167-175 | a form is posted at most twice, and the second carries the same fields with the token issued in the reply just before it |
| PoeToggle.SetPoeState | tollgate_lab/hardware/zyxel_stock.py:219-264 | for every switch and clock, the forms, the result and the number of requests are those that the replies determine: which page decides, what is posted with which token, which reading ends the wait |
| PoeToggle.ToggleUnique | tollgate_lab/hardware/zyxel_stock.py:219-264 | replies and clock determine one result |
| PoeToggle.AwaitRow | tollgate_lab/hardware/zyxel_stock.py:249-264 | ends with the first evidence, the first error, or, only after the deadline and after reading in vain at every test before it, unverified; posts nothing |
| PoeToggle.FormTogglesOnePort | tollgate_lab/hardware/zyxel_stock.py:234-247 | for every table the form changes the admin state of its port and nothing else anywhere |
| PoeToggle.OffAndOnRestores | tollgate_lab/hardware/zyxel_stock.py:219-248 | disable and enable restore priority and power mode of the port and leave every other port as it was |
| PoeEvidence.PostsExactlyWhenCoded | tollgate_lab/hardware/zyxel_stock.py:230-248 | over the whole toggle, whatever the switch answers: forms are posted if and only if the first status page shows the port with codes for both settings, then only the full form of that row, once or twice; an unknown display value is reported if and only if that page shows the port without |
| PoeEvidence.StatusIsPage773 | tollgate_lab/hardware/zyxel_stock.py:199-203 | a status reading asks for page 773 first and last, and returns the reply to that |
| PoeEvidence.FormOfRow | tollgate_lab/hardware/zyxel_stock.py:60-71 | the seven fields of the form, with priority and power mode as their positions in the lists of the switch |
| PoeEvidence.FormExists | tollgate_lab/hardware/zyxel_stock.py:233-240 | a row has codes if and only if its priority is one of the four and its power mode one of the four; an override takes the place of what is displayed |
| PoeEvidence.ToggleWaitsHalfAMinute | tollgate_lab/hardware/zyxel_stock.py:249-264 | every reading but the last is taken within 30 seconds, and a toggle ends unverified if and only if they are over |
| PoeEvidence.FirstEvidenceEndsTheWait | tollgate_lab/hardware/zyxel_stock.py:250-263 | the wait ends verified at the first page with power for an enable, or with "Disable" for a disable, and with an error at the first reading that raises; a missing row is waited out |
| PoeEvidence.EnableShowsEnabledExactly | tollgate_lab/hardware/zyxel_stock.py:249-256 | for every switch, a waiting enable that returns normally has shown the port enabled if and only if no reading shows power on another state before one that shows both |
| PoeEvidence.ToggleShowsEnabledExactly | tollgate_lab/hardware/zyxel_stock.py:219-256 | the same of the whole toggle |
| PoeEvidence.EnablePassesDisabledRow | tollgate_lab/hardware/zyxel_stock.py:252-256 | a switch on which every enable returns normally with a row that says "Disable" |
| PoeEvidence.VerifiedWasServed | tollgate_lab/hardware/zyxel_stock.py:248-262 | a toggle that returns normally polled after its last form, and the last page it received has the very row it returns: with power for an enable, with the state "Disable" for a disable |
| StockZyxelPoe.Set | tollgate_lab/drivers/stock_zyxel_poe.py:296-314 | for every switch, outcome and forms are those that the port, the lock, the replies and the clocks determine: nothing is sent for an invalid or protected port or a busy lock; the first status page decides about a missing row or an empty enabled port; then the toggle, and the verification on its own readings |
| StockZyxelPoe.Verify | tollgate_lab/drivers/stock_zyxel_poe.py:243-294 | reads the status page once a poll, posts nothing, and ends with the verdict that these readings deserve |
| StockZyxelPoe.SpellingExactly | tollgate_lab/drivers/stock_zyxel_poe.py:176-181 | for every text and every port from 1 to 8: it names the port if and only if, white space aside, it is an optional "p" or "P", any number of zeros and the digit |
| StockZyxelPoe.ProtectedInEverySpelling | tollgate_lab/drivers/stock_zyxel_poe.py:183-188 | a text is protected if and only if it is such a spelling of port 1 |
| StockEvidence.DoneMeansReflected | tollgate_lab/drivers/stock_zyxel_poe.py:243-262 | a set that ends normally and was no no-op has posted its form, and the last page it received, after the end of its toggle, shows the port with "Enable" and power, or with "Disable" and no power, as asked |
| StockEvidence.FirstDecisions | tollgate_lab/drivers/stock_zyxel_poe.py:296-309 | invalid if and only if the text spells none of the ports 1 to 8, refused if and only if it spells port 1, busy if and only if it spells another and the lock is taken, each without a request; then a missing row, and a no-op if and only if an enable finds the port enabled without power |
| StockEvidence.FirstMatchEndsTheVerification | tollgate_lab/drivers/stock_zyxel_poe.py:257-262 | the verification passes at the first page that shows admin state and power as asked, and breaks at the first that cannot be read or lacks the port |
| StockEvidence.SetUnique | tollgate_lab/drivers/stock_zyxel_poe.py:296-314 | port, lock, replies and clocks determine the outcome, the forms and the number of requests |
| StockHealthy.HealthySwitchNeedsOneForm | tollgate_lab/drivers/stock_zyxel_poe.py:296-314 | in a quiet session, on a port whose settings have codes, a switch that reflects a request in time and goes on doing so ends the set well, with exactly one form: the full form of the current row |
| StockEvidence.EmptyPortFailsInTheToggle | tollgate_lab/drivers/stock_zyxel_poe.py:303-314 | with no power on any page served during the call, an enable is a no-op exactly on an enabled port, and on a disabled one it fails in the toggle, unverified or with an error of the session; it is never done and never reaches the verification |
| StockEvidence.EmptyPortTimesOut | tollgate_lab/drivers/stock_zyxel_poe.py:310-313 | on a quiet session with a disabled port without a device, an enable always ends with the toggle unverified |
| StockZyxelPoe.FrozenMeansNeverSeen | tollgate_lab/drivers/stock_zyxel_poe.py:263-288 | the row is called frozen only if no reading so far showed the wanted admin state, not before 41 seconds, and after an unchanged row of more than six seconds past the 35th |
| StockZyxelPoe.UnchangedIsFrozen | tollgate_lab/drivers/stock_zyxel_poe.py:269-288 | a row that does not change and has another admin state is called frozen, for every round length d with 41 + 2d at most 60 |
| StockZyxelPoe.PowerPendingEndsUnverified | tollgate_lab/drivers/stock_zyxel_poe.py:263-268 | a row with the wanted admin state, but not the wanted power, ends the verification unverified |
| StockZyxelPoe.ReadingsPerVerification | tollgate_lab/drivers/stock_zyxel_poe.py:53-57 | no verification takes more than 40 readings |
| ZyxelEncode.Encode | tollgate_lab/hardware/zyxel_stock.py:78-96 | the loop with its running index produces the piece that each position deserves |
| ZyxelEncode.EncodedLength | tollgate_lab/hardware/zyxel_stock.py:79-85 | the exact length for every password |
| ZyxelEncode.PasswordIsRecovered | tollgate_lab/hardware/zyxel_stock.py:84-96 | up to 32 characters, length and password are recovered from the text alone, whatever the filler |
| ZyxelEncode.TextDeterminesPassword | tollgate_lab/hardware/zyxel_stock.py:85-88 | up to 53 characters two passwords of one length never share a text, under any fillers |
| ZyxelEncode.LongPasswordsCollide | tollgate_lab/hardware/zyxel_stock.py:85-88 | from 54 characters on, passwords that differ in their first character have the same text |
| ArArchive.Parse | tollgate_lab/deploy/ci_artifact.py:198-224 | the loop fills the dict with exactly the members of the specified walk, and raises exactly on a size field that is no number |
| ArArchive.MembersAreDisjointSlices | tollgate_lab/deploy/ci_artifact.py:202-224 | for every byte string, members are in-bounds slices, disjoint and increasing |
| ArArchive.TruncationKeepsAPrefix | tollgate_lab/deploy/ci_artifact.py:203-217 | cutting the data anywhere loses members only at the end |
| ArArchive.TruncationKeepsContents | tollgate_lab/deploy/ci_artifact.py:203-219 | the members that are left keep their names and contents |
| ArScan.LoopEndsExactly | tollgate_lab/deploy/ci_artifact.py:202-224 | for every data, sizes of any sign included, the loop ends if and only if it meets no position twice |
| ArScan.StandsStill | tollgate_lab/deploy/ci_artifact.py:210-224 | once the loop meets a size of -60 or -61 it is at that position after every number of rounds |
| ArScan.AdvancingEnds | tollgate_lab/deploy/ci_artifact.py:202-224 | a loop that meets only sizes from -59 up ends |
| ArScan.EndsUnlessItStandsStill | tollgate_lab/deploy/ci_artifact.py:210-224 | a loop that meets no size below -61 ends if and only if it meets neither -60 nor -61 |
| ArScan.ParserTellsTheEnd | tollgate_lab/deploy/ci_artifact.py:202-224 | the walk that the parser is proved against is stuck only when the loop meets a size below -59; otherwise the loop ends |
| ArScan.SomeArchiveNeverEnds | tollgate_lab/deploy/ci_artifact.py:207-224 | an archive of 68 bytes on which the loop is at position 8 for ever |
| ArArchive.PrintedArchiveReadsBack | tollgate_lab/deploy/ci_artifact.py:202-224 | the parser undoes the printer: every member in order, its bytes exact, for names up to 16 bytes, sizes up to ten digits and any other header fields |
| ArLaws.PrintedLayout | tollgate_lab/deploy/ci_artifact.py:206-224 | the bytes of a printed archive: the magic, then for each member name, other fields, size and trailer in their columns, the content, and a newline for an odd length |
| ArLaws.DigitsAre | tollgate_lab/deploy/ci_artifact.py:210-210 | the size is written in decimal, digit by digit |
| ArArchive.NameSurvives | tollgate_lab/deploy/ci_artifact.py:212-213 | a name survives if and only if it is stripped and does not end in a slash, and then also with a slash appended |
| ArArchive.DistinctNamesKeepAll | tollgate_lab/deploy/ci_artifact.py:219-219 | with distinct names the dict is the list of members in order |
| ArLaws.LaterMemberWins | tollgate_lab/deploy/ci_artifact.py:219-219 | a name seen before keeps its place and gets the new content, a new one goes to the end, and names stay distinct |
| ArArchive.Package.RepackArToTarGz | tollgate_lab/deploy/ci_artifact.py:187-245 | what the file holds afterwards for every content, and exactly when the call raises |
| ArArchive.PrintedPackageIsRepacked | tollgate_lab/deploy/ci_artifact.py:236-245 | a printed package with distinct names becomes the tar of exactly its members in order |
| ArLaws.PackageBecomesItsTar | tollgate_lab/deploy/ci_artifact.py:236-245 | members with distinct clean names, with or without the slash of some archivers, become a tar of each content under "./" and its name, in order |
| ArLaws.RestIsDropped | tollgate_lab/deploy/ci_artifact.py:202-228 | the same when anything follows that ends the loop: less than a header, a blank size, or more content announced than there is |
| ArLaws.LetterInTheSizeRaises | tollgate_lab/deploy/ci_artifact.py:207-210 | a letter in a size field raises, and the file stays as it is |
| ArLaws.OthersAreLeft | tollgate_lab/deploy/ci_artifact.py:189-196 | a file that starts with the two bytes of gzip, or not with the eight bytes of the magic, stays as it is |
| ArArchive.RepackingTwiceIsOnce | tollgate_lab/deploy/ci_artifact.py:190-192 | repacking a second time changes nothing |
| LineGate.ReadLines | tollgate_lab/hardware/gate.py:59-73 | for any chunks, the kept lines are those of a split of the whole stream at its newlines, without blank ones and the unterminated tail |
| LineGate.SplitIsUnique | tollgate_lab/hardware/gate.py:69-70 | a stream has one split only |
| LineGate.ChunksDoNotMatter | tollgate_lab/hardware/gate.py:65-73 | two ways of cutting a stream into chunks keep the same lines in the same order |
| LineGate.KeptByLines | tollgate_lab/hardware/gate.py:68-72 | a line up to a newline is kept if and only if it has a byte that is no white space, and goes before what is kept of the rest |
| LineGate.UnterminatedKeepsNothing | tollgate_lab/hardware/gate.py:68-69 | a stream without a newline keeps nothing |
| LineGate.LongerWindowExtends | tollgate_lab/hardware/gate.py:64-73 | a longer window only adds lines at the end |
| LineGate.PassingIsStable | tollgate_lab/hardware/gate.py:76-83 | a device that passes the gate passes it in every longer window and for every cut |
| LineGate.GateCounts | tollgate_lab/hardware/gate.py:80-83 | every matching line counts in its place, no other does, and the gate passes if and only if there are enough |
| Reservation.Store.Reserve | tollgate_lab/reservation.py:60-119 | grants exactly to a board that is free, expired or of the same project, and then stores the new lease; otherwise nothing changes |
| Reservation.GrantedExactly | tollgate_lab/reservation.py:73-119 | granted if and only if both names are there and the board has no entry, an expired one or one of the same project; the new entry runs out after the time asked for; a refusal names the holder |
| Reservation.Store.Free | tollgate_lab/reservation.py:122-139 | only the holding project removes an entry; everybody else leaves it as it was |
| Reservation.Store.ReclaimIfExpired | tollgate_lab/reservation.py:162-174 | true exactly for an expired entry of another project |
| Reservation.BoardReservation.Exit | tollgate_lab/reservation.py:234-236 | leaving never removes the entry of another project |
| Reservation.LeaseHolds | tollgate_lab/reservation.py:80-96 | over every run in which no session of the project leaves and its latest lease never runs out, its own refreshes included, the entry is that latest lease and all others are refused |
| Reservation.HeldExactlyWhileSafe | tollgate_lab/reservation.py:80-139 | a project keeps the board over a whole run if and only if none of its sessions leaves and its latest lease never runs out |
| Reservation.SessionKeepsBoardExactly | tollgate_lab/reservation.py:201-236 | a session that stays inside keeps its own lease, but its board if and only if no other session of its project leaves and the latest lease of the project never runs out |
| Reservation.ChangesHandsOnlyWhenLetGo | tollgate_lab/reservation.py:60-139 | over every run, a board that changes hands does so at a step at which a session of its holder leaves or the holder's lease has expired |
| Reservation.CrashedHolderHoldsUntilExpiry | tollgate_lab/reservation.py:51-53 | over every run without a step of the holder's project, it holds the board exactly until its lease expires; then every project that asks next gets it, unless one has got it already |
| Reservation.SecondSessionGivesTheBoardAway | tollgate_lab/reservation.py:86-91 | a run in which a session is inside with a live lease and another project has the board, because a second session of its project left |
| Reservation.ShorterRefreshGivesTheBoardAway | tollgate_lab/reservation.py:88-91 | the same without anybody leaving, because a second session asked for a shorter time |
| ReservationRace.FileIsOneWhole | tollgate_lab/reservation.py:110-118 | over every interleaving, with temporary files written piece by piece and failures and deaths at any point, the board's file is absent, as at first, or one caller's whole text, which parses to that caller's entry |
| ReservationRace.DeathLeavesAPartialTemp | tollgate_lab/reservation.py:110-114 | a run that leaves a temporary file of any chosen length behind |
| ReservationRace.OverwritesOnlyWhatLandedLater | tollgate_lab/reservation.py:80-119 | a live entry of another project is overwritten only if it landed after the caller's reading; a caller with a current reading never overwrites one |
| ReservationRace.UnlinksOnlyWhatLandedLater | tollgate_lab/reservation.py:128-139 | a release removes an entry of another project only if it landed after the release had read the file |
| ReservationRace.BothAreGranted | tollgate_lab/reservation.py:80-119 | an interleaving in which two projects are both granted the same board |
| ReservationRace.LateUnlinkRemovesAnother | tollgate_lab/reservation.py:128-139 | an interleaving in which a release removes the live entry of another project |
| SessionRegistry.LostOnlyAfterClose | tollgate_lab/session_registry.py:139-148 | with any steps between reading and probing, LOST is reported exactly for a closed descriptor or a file removed meanwhile; within seven days exactly for a closed descriptor |
| SessionRegistry.ReportExactly | tollgate_lab/session_registry.py:131-150 | in one step, over every run: skipped exactly for a torn or missing file, pruned exactly for a whole record of more than seven days; within them a live session is shown as running, one that ended with its status, and LOST is reported if and only if it died running or was ended with the status "running" |
| SessionRegistry.DeathInARewriteIsInvisible | tollgate_lab/session_registry.py:102-103 | a session that dies in the middle of a rewrite is neither shown nor reported |
| SessionRegistry.EndedInTheGapLooksLost | tollgate_lab/session_registry.py:140-146 | a session that ends properly in the gap is reported LOST |
| SessionRegistry.RemovedInTheGapLooksLost | tollgate_lab/session_registry.py:143-146 | a live session whose file is removed in the gap is reported LOST |
| SessionRegistry.Bench.Status | tollgate_lab/session_registry.py:131-150 | one report a file as in one step, the old records removed, the lost ones journaled |
| SessionRegistry.ListingDeserved | tollgate_lab/session_registry.py:131-150 | over every run each entry of a listing is the report that its session deserves, and nothing changes but that the whole records of more than seven days are removed |
| SessionRegistry.JournaledInOrder | tollgate_lab/session_registry.py:146-148 | the journal gets exactly the sessions that are LOST in the listing, in its order |
| SessionRegistry.Bench.BeginSession | tollgate_lab/session_registry.py:106-128 | its steps in order are creating, locking and writing; afterwards the record says "running" and the flock is held |
| SessionRegistry.SessionHandle.Note | tollgate_lab/session_registry.py:83-93 | a rewrite leaves a whole record that says "running" and nothing else changed |
| SessionRegistry.SessionHandle.End | tollgate_lab/session_registry.py:95-100 | its steps in order are emptying, writing and closing, and what the world is afterwards |
| SessionRegistry.StatusIsWrittenUnderTheFlock | tollgate_lab/session_registry.py:95-103 | along these steps the file is torn and then whole with the final status while the flock is still held, and only then is it free |
| Blossom.TagsAsDict | tollgate_lab/deploy/ci_artifact.py:561-566 | a key is present exactly when a tag has that name, with the values of all such tags in order |
| Blossom.EventMatches | tollgate_lab/deploy/ci_artifact.py:590-650 | an event is accepted if and only if it passes every filter; `BlossomLaws` says what these demand |
| Blossom.Resolve | tollgate_lab/deploy/ci_artifact.py:653-729 | the result is the leftmost newest passing event of positive time over both lists, nothing exactly without one, and an error exactly for a malformed `r` tag of a parseable build |
| Blossom.BestStep | tollgate_lab/deploy/ci_artifact.py:689-693 | one more event replaces the best exactly when it passes and is strictly newer, and the best stays the declared choice |
| Blossom.ChoiceIsUnique | tollgate_lab/deploy/ci_artifact.py:673-693 | two lists of events admit at most one choice |
| Blossom.NewerWinsAcrossKinds | tollgate_lab/deploy/ci_artifact.py:695-722 | a build in flight is chosen only if newer than every published one, and otherwise the choice is that among the published |
| BlossomLaws.ChosenIsNewestServed | tollgate_lab/deploy/ci_artifact.py:610-729 | the chosen artifact is that of an event with a positive time whose own tags or content meet every demand on architecture, compression, format, branch and commit, with the fields as they stand there; no event that meets them is newer |
| BlossomLaws.NothingMeansNoneServes | tollgate_lab/deploy/ci_artifact.py:673-729 | nothing is chosen only when no event with a positive time meets the demands |
| BlossomLaws.PassesExactly | tollgate_lab/deploy/ci_artifact.py:609-650 | an event passes if and only if its values meet the demands |
| BlossomLaws.NoOtherBranch | tollgate_lab/deploy/ci_artifact.py:621-625 | with a branch given, the artifact comes from an event whose own first filename has "_", the branch with "-" for "/", and "." |
| BlossomLaws.NoFallbackToAnotherCommit | tollgate_lab/deploy/ci_artifact.py:639-648 | with a commit pinned, the artifact comes from an event whose own tags or content carry the first seven characters of it, however new the others are; when none carries them, nothing is chosen |
| BlossomLaws.ValuesOfTags | tollgate_lab/deploy/ci_artifact.py:561-566 | the values under a key are all that follows the name in each tag with this name, joined in order |
| BlossomLaws.FlatMeans | tollgate_lab/deploy/ci_artifact.py:704-709 | what stands in the content of a build: lists as they are, a text as one value, an empty text not at all |
| BlossomLaws.BuildIdsMean | tollgate_lab/deploy/ci_artifact.py:710-713 | the identifiers raise if and only if some `r` tag has no value, and the first is that of the first `r` tag |

## Left out

- ArArchive.Parse: at a size of -60 or less it ends with a result of its own, where the code stays at
  the header or moves back; everything from -59 up is as in the code. `ArScan` has the positions of the
  loop for all sizes, but not the members it collects after moving back.
- ArArchive.Package.RepackArToTarGz: the same sizes count as raising.
- StockZyxelPoe.Set: a reading of the final verification that raises ends it without saying which error
  it was.
- PoeToggle.AwaitRow: when the deadline has passed before the first test, the code raises for an unset
  variable instead of reporting the port unverified; both are exceptions, and the model has one.
- PcscdDomain.InvStep: systemctl returns only when the restart job it waits for has ended; this is
  systemd's part, and assumed.
- PcscdCtl.RestartPcscd: the caller lives until the call ends; its death at any point is in the runs of
  `PcscdSafety`. Places that labgrid hands out after the second check are not excluded by the
  code, so nothing is claimed about them.
- SessionRegistry.ReportExactly: two readers whose probes lock each other out, two sessions that share a file
  name, and `note` after `end` are not modelled.
- BlossomLaws.ChosenIsNewestServed: the content of a build event is a JSON object of texts and lists of texts;
  other JSON is not part of this model.
- ReservationRace.FileIsOneWhole: the text of an entry and its parsing are opaque, except that a written
  entry parses to itself.
- Journal lines, log output, the printed reports and the process ids of children.
- HTTP, SSH, serial ports, labgrid and systemd themselves: arbitrary answers. HTML and JSON are opaque: a
  page is what the client looks for in it.
- Decoding, stripping and matching of a telemetry line: opaque functions. The gzip tar writer too; only
  `RepackingTwiceIsOnce` assumes that its output starts with the gzip magic.
- Lower-casing and digits beyond ASCII. Watts are taken as printed with three decimals.
- PoeToggle.OffAndOnRestores: that the switch stores the decoded codes for the listed port and for no
  other is assumed; what firmware does with a form is not part of this model.
- The settings `portLimitMode`, `portRangeDetection` and `poeTimeRange`, which the code sends as constants.
- Changes to the switch by clients outside the drivers' lock, and the waiting for that lock, whose outcome
  is a parameter.
- The git branch in the bench lock's record: one more field of `HolderRecord.RoundTrip`.
- Failing writes: a full disk or a lock file without permission.
- The other drivers, cloud and deployment scripts, and the OpenWrt strategy: command strings and plumbing.
