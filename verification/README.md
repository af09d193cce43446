# Verification of the vk-turn-proxy bond transport

A Dafny model of the parts of vk-turn-proxy that are hard to get right by reading: the bonded
packet connection and its races, the server's bond manager and groups, the client's bond
supervisor, the ledgers that count connections, streams and traffic, the bond control-line codec,
the token file, and the session pool.

`dafny verify dfyconfig.toml` checks everything.

## How the model is built

*Sequential code* keeps its form. Objects whose methods update fields are classes
(`BondedPacketConn`, `VlessBondGroup`, `Limiter`, `Registry`, `Pool`, `Selector`, `SessionSlot`,
`Generation`); their methods do the work in place and are proved against functions on values or
against stated properties. Loops are loops with invariants. Code that only computes (the codec, the
window arithmetic) is functions.

*Concurrent code* is a transition system over those functions. The state holds what the goroutines
share and one program counter per goroutine; one step is one section under a lock, one atomic
operation, or one action taken outside any lock. A run is a list of labels (who moves, and what the
environment answers), `Exec(labels)` is the state it leads to, and a label that is not enabled
changes nothing. A theorem about `Exec(ls)` for every `ls` therefore speaks about every reachable
state of every interleaving of any number of goroutines. Fields that only record what happened
(`log`, `sealed`, `hadPath`, `cleanups`, `received`, ...) are history and never read by a step,
except where a guard keeps an index in range.

- `BondedConn`: the locked sections of the bonded connection, as functions and as a class.
- `BondRaces`: AddConn, readLoop, WriteTo, Close, the grace timer and the consumer of StateChanged as
  goroutines. AddConn and startEmptyGrace are split at their test of the `closed` channel, because
  Close closes that channel without holding the lock.
- `BondOwnership`, `BondClosing`, `BondGrace`, `BondWakeups`: the invariants. `BondTheorems`: what
  follows for whole runs. `BondEnding`: how soon an abandoned bond ends. `BondStaleTimers`: when a
  callback outlives its timer. `BondCauses`: why a path leaves and why a bond closes. `BondProgress`:
  calls get to their end, Close gets done, every path is read. `BondWriters`: what one racing WriteTo
  tries and leaves behind.
- `WriteStriping`, `RoundRobin`: which path a packet leaves on. `PacketFlow`: how packets come in.
- `GoText`, `BondHello`, `KcpProfile`: the control lines, byte for byte.
- `BondGroup`, `BondManager`: server groups, their windows, and the racing `add` calls. `BondSizing`: how
  many paths a window is sized for. `BondAnswers`: what an `add` call answers, and why.
- `ConnectionLimiter`, `BackendGate`: admission ledgers. `LeaseHandover`: the accept goroutines and
  the limiter together with any number of bonds, each of them a whole `BondRaces` state.
- `MetricsHistory`, `MetricsTotals`, `MetricsMaximum`: the metrics registry.
- `ProtocolSelector`, `FirstPathWait`, `ProtocolFallback`, `BondSupervisor`, `RetryDelay`: the client
  supervisor.
- `TokenFile`, `SessionPool`: racing token creators, least-loaded ordering.

Results of reads, writes, acknowledgements, factories, random sources, timers and contexts are
parameters of the steps and arbitrary. Time is a timer that may fire at any step.

## What the proofs found

- A grace-timer callback does not check that it is the tracked timer's. One is left stale exactly
  when AddConn or Close stops a timer that has already fired (`StaleExactlyAfterLateStop`); a run
  without such a late stop expires the bond only by the tracked timer (`ExpiredByTheTrackedTimer`),
  and after one a stale callback can end a later empty period (`StaleTimerEndsALaterGrace`), from every
  open state in which it still waits (`StaleCallbackCanExpire`).
- A V1 group is sized for the most paths that a Count has observed, which is what
  docs/BOND_PROTOCOL.md promises, and not always for the most it has had at once: a path can be lost
  between AddConn and Count (`PeakMissed`). `SizedForObserved` says exactly when the two agree.
- Striping uses each of n paths exactly once in n writes, and no write panics, exactly while the
  path counter stays within the range of `int`, with one more write where n divides 2^63
  (`WriteRound`); a single write panics exactly where `StartIndexInRange` says.
- Rotation among equally loaded sessions is exact unless the 64-bit counter wraps in between and the
  pool size does not divide its range (`CandidateRound`, `EachSessionFirstOnce`).
- A generation that a factory returns together with an error is never cleaned up; all others are
  (`OneGenerationAtATime`). Over the program's own factory, the selector around the generation setup,
  no run returns both, so all are cleaned up (`SupervisedGenerationsAreCleaned`).
- V2 can be given up before every path has failed (`UnavailableBeforeEveryPathFailed`): a path that
  has not reported when the grace ends counts as unavailable. `EveryPathFailedExactly` says when all
  of them have. docs/BOND_PROTOCOL.md speaks of every path lacking an acknowledgement.
- A token file loads back exactly when the token is not all zeroes (`TokenFileRoundTrip`).

## Model

| member | source | states |
|---|---|---|
| BondedConn.BondedPacketConn.constructor | tcputil/bonded_packet_conn.go:107-124 | a new bond is open, empty, without timer, not expired and not notified |
| BondedConn.BondedPacketConn.StopEmptyTimer | tcputil/bonded_packet_conn.go:304-307 | the tracked timer is stopped at the runtime and forgotten; without one nothing changes |
| BondedConn.BondedPacketConn.InstallPath | tcputil/bonded_packet_conn.go:148-157 | an expired bond refuses the path; otherwise the timer is stopped and the path joins the end of the list |
| BondedConn.BondedPacketConn.DetachPath | tcputil/bonded_packet_conn.go:384-397 | exactly the first occurrence of the path leaves the list, and the result says whether there was one |
| BondedConn.BondedPacketConn.StartGraceTimer | tcputil/bonded_packet_conn.go:426-438 | a fresh timer is armed and tracked |
| BondedConn.BondedPacketConn.ExpireEmpty | tcputil/bonded_packet_conn.go:426-437 | the callback expires exactly an empty bond and drops the tracked timer either way |
| BondedConn.BondedPacketConn.NotifyStateChanged | tcputil/bonded_packet_conn.go:441-446 | afterwards the one-place channel is full, whether or not it was |
| Prelude.WithoutDistinct | tcputil/bonded_packet_conn.go:388-395 | on a list without repetitions removal takes out that path and keeps all others, each once |
| BondOwnership.LockStep | tcputil/bonded_packet_conn.go:140-159 | in every step, the goroutine inside a split section is exactly the one that holds the lock |
| BondOwnership.OwnerStep | tcputil/bonded_packet_conn.go:384-412 | every step keeps: at most one goroutine is in charge of a path and knows what was done to it; listed paths are untouched and distinct; no path is forgotten |
| BondClosing.CloseStep | tcputil/bonded_packet_conn.go:300-315 | every step keeps: one goroutine runs Close, what it has established at each point stays true, and the paths still listed are among those it has left to remove |
| BondGrace.GraceStep | tcputil/bonded_packet_conn.go:384-439 | every step keeps: paths exclude timer and expiry; a tracked timer is armed or its callback waits; an abandoned bond is watched; an expired bond has a closer |
| BondWakeups.WakeStep | tcputil/bonded_packet_conn.go:399-403 | every step keeps: a consumer that saw another path count has a notification or a notifier coming |
| BondTheorems.PathsRetireOnceInOrder | tcputil/bonded_packet_conn.go:384-412 | in every interleaving a path's connection close, cleanup and done close happen at most once each, in that order, and never while it is listed |
| BondTheorems.NothingLeaks | tcputil/bonded_packet_conn.go:300-315 | once Close has finished and all goroutines have ended, every path ever added was closed, cleaned up and reported done |
| BondTheorems.SealIsFinal | tcputil/bonded_packet_conn.go:303-308 | from Close's locked section on, the bond is closed, no timer is tracked, no new one is armed and no path joins, whatever runs afterwards |
| BondTheorems.CloseIsFinal | tcputil/bonded_packet_conn.go:126-164 | after Close has finished the bond stays closed and empty, tracks no timer and arms no new one in every continuation, even for an AddConn that passed its closed test before |
| BondTheorems.TimersFollowPaths | tcputil/bonded_packet_conn.go:148-157 | in every reachable state a listed path means no tracked timer and no expiry, and before expiry no timer but the tracked one is armed |
| BondTheorems.ExpiryIsFinal | tcputil/bonded_packet_conn.go:428-436 | an expired bond stays expired and empty in every continuation |
| BondCauses.PathLeavesForAReason | tcputil/bonded_packet_conn.go:384-397 | in every run a path is taken off the list only by a goroutine that set out for that very path because its reader failed, because of Close, or because its own write to it failed for good |
| BondCauses.ListMoves | tcputil/bonded_packet_conn.go:157-395 | each step keeps the list, appends one new path, or takes one out without disturbing the order of the others |
| BondCauses.ClosedForAReason | tcputil/bonded_packet_conn.go:300-302 | in every run a bond is closed or being closed only if Close was called or an empty grace ran out |
| BondProgress.OwnStepsEnd | tcputil/bonded_packet_conn.go:384-412 | in every run each step of a goroutine that is neither blocked by the lock nor waiting for another Close brings its call nearer to its end, and the one that runs Close runs it until Close has finished |
| BondProgress.CloseHasItsCloser | tcputil/bonded_packet_conn.go:300-315 | while Close has begun and not finished some goroutine is running it |
| BondProgress.CloseReturnsWhenDone | tcputil/bonded_packet_conn.go:300-315 | every call of Close, also one that does no work itself, returns only when the bond is closed, empty and done closing |
| BondProgress.EveryPathIsRead | tcputil/bonded_packet_conn.go:157-162 | in every reachable state each listed path has its reader, or one about to start |
| BondEnding.EmptyBondIsNeverStuck | tcputil/bonded_packet_conn.go:399-439 | an open bond that has had a path and is empty has a timer, has expired, or is being looked after; some step of the goroutines and timers already there helps, and at most seven in a row close it or give it a path without a new call |
| BondEnding.HelpLowersRank | tcputil/bonded_packet_conn.go:399-439 | between two abandoned states every helpful step, of whichever goroutine or timer, lowers a rank of at most 7, and no step of anybody raises it |
| BondEnding.AbandonedForSixTurns | tcputil/bonded_packet_conn.go:399-439 | under every schedule an open bond stays abandoned for at most six helpful turns, however many other steps come in between |
| BondTheorems.NoLostWakeup | tcputil/bonded_packet_conn.go:172-177 | a consumer asleep on an empty state channel has seen the current path count unless a notifier is on its way |
| BondWakeups.ConsumerWakes | tcputil/bonded_packet_conn.go:172-177 | a blocked consumer takes the notification that is there and then counts; without one it stays blocked |
| BondWakeups.NotifiersNotify | tcputil/bonded_packet_conn.go:441-446 | a path that joins, one that leaves, and Close each leave the state channel full |
| BondStaleTimers.StaleExactlyAfterLateStop | tcputil/bonded_packet_conn.go:153-156 | from every reachable unexpired state without a stale callback, a step that does not expire the bond leaves one if and only if it stops a timer that has already fired |
| BondStaleTimers.ExpiredByTheTrackedTimer | tcputil/bonded_packet_conn.go:426-437 | in a run without a late stop only the callback of the tracked timer ever expires the bond |
| BondStaleTimers.StaleTimerEndsALaterGrace | tcputil/bonded_packet_conn.go:426-437 | there is a run in which a stale callback expires the bond while the timer of the current empty period is still armed |
| BondStaleTimers.StaleCallbackCanExpire | tcputil/bonded_packet_conn.go:426-437 | from every reachable open and unexpired state in which a stale callback waits, some continuation expires the bond by that callback while it is stale |
| WriteStriping.StartIndexInRange | tcputil/bonded_packet_conn.go:219 | the first index is out of range if and only if the counter is at least 2^63 and its distance to 2^64 is not a multiple of the path count |
| WriteStriping.FirstIndex | tcputil/bonded_packet_conn.go:219 | the first index is where the counter points below 2^63, never positive beyond, and negative exactly where it is out of range |
| WriteStriping.PathAt | tcputil/bonded_packet_conn.go:221 | the attempted path is the one that many places further round the list |
| WriteStriping.Stripe | tcputil/bonded_packet_conn.go:220-250 | paths are tried once each in rotated order up to the first success, and the removed ones are exactly those whose attempt failed for good, in the order tried |
| WriteStriping.WriteTo | tcputil/bonded_packet_conn.go:196-264 | for every 64-bit counter: a panic exactly where the index is out of range; otherwise non-empty input yields the full length, or closed exactly when closed was seen and nothing was sent; at most one success, all paths tried in order without one, only permanent failures removed |
| WriteStriping.RemovedMeansPermanent | tcputil/bonded_packet_conn.go:247-249 | over distinct paths a tried path is removed if and only if its attempt failed for good |
| BondWriters.WriterFollowsStripe | tcputil/bonded_packet_conn.go:219-250 | in every run, a writer past its loop has tried its snapshot from where the counter pointed, in order, up to the first success and all of it without one, and has returned after a success |
| BondWriters.UnsentWriteLeavesGrace | tcputil/bonded_packet_conn.go:206-263 | in every run a write that sends nothing never returns leaving an open, unexpired bond without paths and without a grace timer |
| BondWriters.WriteAfterCloseTriesNothing | tcputil/bonded_packet_conn.go:200-204 | a write called on a closed bond tries no path, whatever runs meanwhile |
| RoundRobin.EachPlaceOnce | tcputil/bonded_packet_conn.go:221 | n consecutive numbers, taken modulo n, point at each of n places exactly once, in rotated order |
| WriteStriping.WriteRound | tcputil/bonded_packet_conn.go:219-250 | n successive WriteTo calls over n unchanged paths whose first attempts succeed go out on each path exactly once, in rotated order, and one of them panics if and only if the counter leaves the clean range |
| WriteStriping.RoundSent | tcputil/bonded_packet_conn.go:219-250 | if none of n consecutive counters is out of range the round was clean, so its sends are the paths, each once |
| PacketFlow.EachPathInOrder | tcputil/bonded_packet_conn.go:346-382 | what ReadFrom has returned of each path is a prefix, in order, of the packets of length 1 to MTU plus 128 that path received |
| PacketFlow.ContentsUnchanged | tcputil/bonded_packet_conn.go:183-194 | each packet is copied as far as the buffer goes, and whole into a buffer of the MTU plus 128 |
| PacketFlow.NothingLostWhileOpen | tcputil/bonded_packet_conn.go:354-380 | while open, a path's received packets of length 1 to MTU plus 128 are exactly those returned, then queued, then in the reader's hand; all others, and only they, were dropped |
| PacketFlow.FlowSteps | tcputil/bonded_packet_conn.go:354-380 | a received packet is in hand exactly if its length is 1 to MTU plus 128, goes to the end of a queue of fewer than 1024, and comes out first in first out; a reader gives up only on a closed bond |
| BondHello.HelloWireFormat | docs/BOND_PROTOCOL.md:9-20 | a valid hello is written as the documented V1 or V2 line |
| BondHello.HelloRoundTrip | tcputil/bonded_packet_conn.go:475-525 | exactly the valid hellos are written; each record fits in 256 bytes and reads back as the same hello |
| BondHello.AcceptedHelloRewrites | tcputil/bonded_packet_conn.go:567-629 | any accepted record carries a valid hello, and writing it again gives a record that reads the same |
| BondHello.HelloAcceptedExactly | tcputil/bonded_packet_conn.go:567-603 | a record is accepted as a hello if and only if it is terminated, at most 256 bytes, its words say that hello, and the hello is valid |
| BondHello.HelloRefusedExactly | tcputil/bonded_packet_conn.go:567-603 | a record is refused with exactly the error that fits it |
| BondHello.ValidHelloMeans | tcputil/bonded_packet_conn.go:605-629 | a valid hello in numbers: 8 to 64 hexadecimal digits; in V2 1 to 64 paths, no FEC or two positive shard counts of at most 256 together, MTU 50 to 1480, or 1472 with FEC |
| BondHello.AckRoundTrip | tcputil/bonded_packet_conn.go:499-535 | the acknowledgement is written and read as acceptance |
| BondHello.AcceptedExactly | tcputil/bonded_packet_conn.go:528-535 | a record is read as an acknowledgement if and only if it is terminated, at most 256 bytes and trims to it |
| BondHello.RejectedExactly | tcputil/bonded_packet_conn.go:536-541 | a record is read as a rejection with a code if and only if it has the three words and the code is valid |
| BondHello.RejectRoundTrip | tcputil/bonded_packet_conn.go:506-541 | exactly the valid codes are written, in at most 256 bytes, and read back as a rejection with that code |
| BondHello.HelloIsNeverAnAnswer | tcputil/bonded_packet_conn.go:528-603 | no record whatsoever is both a hello and an acknowledgement or rejection |
| GoText.SpacesAreUnicode | tcputil/bonded_packet_conn.go:567-568 | the white space that splits and trims control lines is that of Unicode, for every code point of the basic plane |
| GoText.AtoiMeans | tcputil/bonded_packet_conn.go:583-589 | a number is an optional sign and digits within the range of a 64-bit int |
| KcpProfile.BondedWindowIsCappedProduct | tcputil/tcputil.go:304-325 | for all integers the window is min(8192, max(base,1) x max(paths,1)), hence between 1 and 8192 |
| KcpProfile.BondedWindowMonotone | tcputil/tcputil.go:311-325 | more paths never give a smaller window |
| BondGroup.JoinKeeps | server/main.go:390-394 | AddConn on a group that is not full keeps the window law and the V2 path limit |
| BondGroup.CountKeeps | server/main.go:395-399 | Count and what follows keep the window law and never shrink an installed window |
| BondGroup.AdmitKeeps | server/main.go:388-407 | so does the whole admission, whatever paths are lost in between |
| BondGroup.SettersKeep | server/main.go:429-448 | installing and clearing a window setter keep the window law |
| BondGroup.VlessBondGroup.constructor | server/main.go:318-324 | a new group has its hello, no path, no setter and no applied window |
| BondSizing.PeakIsObservedOrMissed | server/main.go:394-398 | in every run, with path losses between AddConn and Count, a group's maximum is the largest count that a Count saw, and the most paths it has had are that, or were lost before a Count, or are there now |
| BondSizing.MissedBeforeCount | server/main.go:394-398 | a larger count is lost unseen only between an add call's AddConn and its Count |
| BondSizing.SizedForObserved | server/main.go:409-417 | in every run a V2 group is sized for its negotiated paths and a V1 group for the most paths observed, at least one; outside the group's lock that is the most it has had at once if and only if no larger count was missed |
| BondSizing.PeakMissed | server/main.go:394-398 | for every V1 hello there is a run after which the group has had two paths at once and is sized for one |
| BondSizing.ClosedGroupTakesNoPath | server/main.go:394-395 | once its bond is closed a group never gets another path, in any continuation |
| BondGroup.VlessBondGroup.ApplyWindowLocked | server/main.go:419-427 | an installed session's window is raised to the desired size exactly when that is larger than the applied one |
| BondGroup.VlessBondGroup.AddWithCleanup | server/main.go:388-407 | refused exactly when a V2 group has its negotiated paths; otherwise path count, maximum and window follow |
| BondGroup.VlessBondGroup.InstallWindowSetter | server/main.go:429-439 | the new session gets the window for the desired paths whatever was applied before |
| BondGroup.VlessBondGroup.ClearWindowSetter | server/main.go:441-448 | only the setter that is installed is cleared |
| BondManager.InvStep | server/main.go:292-351 | every step keeps: the map holds exactly the unfinished groups under their ids, an unstarted group has a starter, a held group lock has its add call inside the section, records only move forward |
| BondManager.RegisteredGroupStarts | server/main.go:315-349 | in every interleaving a group in the map has been started or an add call in flight is certain to start it |
| BondManager.StarterIsNotRefused | server/main.go:334-349 | each of that call's own next steps, at most four, finds the group started or brings it nearer to startOnce, whatever the environment answers: it is neither refused nor blocked |
| BondManager.QuietManagerHasOnlyStartedGroups | server/main.go:292-351 | with no add call in flight every group in the map has been started |
| BondManager.GroupRunsAtMostOnce | server/main.go:332-349 | a group runs at most once, and not before it has admitted a path |
| BondManager.OneUnfinishedGroupPerBond | server/main.go:316-346 | a bond id has at most one unfinished group, the one in the map, so onDone never meets another |
| BondManager.WindowAndPathLimits | server/main.go:388-448 | in every reachable state a serving session's window is min(8192, base x desired paths) and a V2 group is within its negotiated path count |
| BondManager.WindowNeverShrinks | server/main.go:419-427 | no step of any goroutine shrinks the window of an installed session |
| BondManager.RunAdvances | server/main.go:456-503 | each stage of a started run that does not wait for the group's lock comes nearer to its end, a session that comes up is served, and at the end the bond is closed and the group out of the map |
| BondAnswers.SucceedsExactlyAfterAddConn | server/main.go:332-350 | in every run an add call that has returned has succeeded if and only if it reached AddConn |
| BondAnswers.RefusedExactlyForAReason | server/main.go:292-334 | in every run an add call has been refused if and only if its hello was invalid or of another profile, the bond had another hello, the acknowledgement did not go out, or a V2 group had its negotiated paths |
| BondAnswers.OnlyV2IsAcknowledged | server/main.go:307-311 | in every run exactly the V2 calls are acknowledged, before they go on |
| BondAnswers.ManagerFollows | server/main.go:332-350 | in every run an add call answers an error only before AddConn and nil only after it |
| BondAnswers.GoroutineFollows | server/main.go:226-236 | so do the accept goroutines, which get nil only when AddConn has returned |
| ConnectionLimiter.AdmitCounts | server/connection_limiter.go:52-69 | a connection is admitted exactly when both limits leave room, and then the counts gain exactly its lease; otherwise the verdict names the reason |
| ConnectionLimiter.ReleaseCounts | server/connection_limiter.go:85-96 | releasing a live lease takes exactly it out of the counts, and no zero entry remains |
| ConnectionLimiter.SumIsTotal | server/connection_limiter.go:24-30 | counts that agree with a bag of leases sum to its size |
| ConnectionLimiter.LogsAtPowersOfTwo | server/connection_limiter.go:130-132 | a rejection is logged exactly when its number is a power of two |
| ConnectionLimiter.Limiter.constructor | server/connection_limiter.go:45-49 | a new limiter counts nothing |
| ConnectionLimiter.Limiter.Acquire | server/connection_limiter.go:52-69 | the verdict and new counts are those of admission, with the limits tested in the source's order |
| ConnectionLimiter.Limiter.ReleaseSlot | server/connection_limiter.go:85-96 | the new counts are those of release |
| LeaseHandover.LimiterCountsLiveLeases | server/connection_limiter.go:52-96 | in every reachable state total = sum of per-address counts = live leases, within both limits, no zero entries, and the connection gauge is the number of open connections |
| LeaseHandover.InvStep | server/main.go:166-243 | every step of an accept goroutine or of any thread of any bond keeps: ledger, gauge, ownership flags, and what each path's retirement has done to its lease and socket |
| LeaseHandover.FlagsFollowHandOver | server/main.go:183-236 | add has returned nil only if AddConn got the connection, and past add both flags are set if and only if it did not |
| LeaseHandover.LeaseReturnedAtMostOnce | server/main.go:177-236 | however goroutines and bonds race, a lease is returned and a socket closed at most once: by the goroutine if the connection never reached AddConn, otherwise exactly as often as its path's log has the cleanup and the close |
| LeaseHandover.LeaseReturnedExactlyOnce | server/main.go:183-243 | when the goroutine is gone and the bond it joined, if any, is closed with all its goroutines ended, the lease was returned and the socket closed exactly once and the gauge lowered |
| LeaseHandover.GoroutineEnds | server/main.go:183-243 | each step of an accept goroutine that is not inside AddConn brings it nearer to its end, and into add and AddConn when it gets there |
| LeaseHandover.AcceptsExactly | server/main.go:166-176 | in every run a connection gets in if and only if both limits leave room, starting with its lease and socket its own |
| LeaseHandover.GaugeIsLowered | server/main.go:177-181 | a cleanup that has released its lease lowers the gauge once |
| BackendGate.CountersAreSlotsHeld | server/backend_limiter.go:82-107 | at load and compare-and-swap granularity every counter is the number of slots held, never negative and never over its limit |
| BackendGate.RejectedExactlyAtALimit | server/backend_limiter.go:117-131 | in every interleaving a stream is rejected if and only if its call found a limit met when it looked, and the reason names that limit |
| BackendGate.RoomMeansALease | server/backend_limiter.go:82-96 | from every reachable state an undisturbed call that finds room under both limits has its lease after five steps |
| BackendGate.FreshSessionAdmits | server/backend_limiter.go:109-115 | a new session starts without streams, so with global room its first stream gets in |
| BackendGate.ReleaseEnds | server/backend_limiter.go:144-156 | each step of a release, whoever interferes, brings it nearer to having given everything back |
| BackendGate.SettledCountersAgree | server/backend_limiter.go:117-156 | with nobody mid-call, global = sum of sessions = active-stream gauge = live leases |
| MetricsHistory.InvStep | metrics/metrics.go:148-200 | opening and closing keep the active set, gauge, history and closures consistent |
| MetricsHistory.HistoryIsLastClosures | metrics/metrics.go:179-200 | in every run the history is exactly the last min(128, closed) closures in order, and the gauge is the number of active paths |
| MetricsHistory.EveryPathIsActiveOrClosed | metrics/metrics.go:148-200 | every opened path is either active or has been recorded closed, not both |
| MetricsHistory.Registry.constructor | metrics/metrics.go:93-95 | an unused registry has no paths |
| MetricsHistory.Registry.OpenPath | metrics/metrics.go:148-163 | a fresh id becomes active and the gauge rises |
| MetricsHistory.Registry.ClosePath | metrics/metrics.go:179-200 | the first close of an active path moves it to the history, shifting out the oldest when full; later ones change nothing |
| MetricsHistory.Registry.PathSnapshots | metrics/metrics.go:287-300 | entries are strictly ordered by id, are exactly the active and remembered paths with the right flag, and as many are active as the count says |
| MetricsTotals.WordsAreRemainders | metrics/metrics.go:202-260 | in every interleaving the 64-bit counters are the counts below, modulo 2^64 |
| MetricsTotals.WordTotalsFollowPaths | metrics/metrics.go:202-260 | modulo 2^64, each total word plus what observers in flight owe it is the sum of the path words over all paths ever opened, and plus what they still add is what was observed |
| MetricsTotals.WordTotalsAtRest | metrics/metrics.go:202-260 | with no observation in flight each total word is the sum of the path words and the amount observed, modulo 2^64, and exactly that amount below 2^64 |
| MetricsTotals.TotalsFollowPaths | metrics/metrics.go:202-260 | of the counts behind the words: each total is the sum over all paths less what observers in flight owe, and never more than the sum |
| MetricsTotals.TotalsEqualPathsAtRest | metrics/metrics.go:202-260 | of the counts behind the words: with no observation in flight each total equals the sum over all paths |
| MetricsTotals.TotalsAreWhatWasObserved | metrics/metrics.go:202-260 | of the counts behind the words: totals plus what is in flight are exactly the operations, bytes, errors and latencies observed |
| MetricsTotals.PathsAreWhatWasObserved | metrics/metrics.go:203-247 | in every interleaving each path's own counter plus what is in flight for it is exactly what was observed on that path |
| MetricsMaximum.MaximumIsExact | metrics/metrics.go:262-268 | when all writers are done the maximum is an upper bound of their values, and is one of them or still 0 |
| MetricsMaximum.MaximumNeverFalls | metrics/metrics.go:262-268 | no step lowers the maximum |
| MetricsMaximum.UndisturbedUpdate | metrics/metrics.go:262-268 | an undisturbed writer is done in two steps and leaves the larger of the two values |
| ProtocolSelector.Selector.Create | client/vless_bond_supervisor.go:88-102 | one attempt, or in auto mode after an unavailable V2 a second one with V1; the abandoned generation and no other is closed; the flag is set exactly then |
| ProtocolSelector.FallbackIsOneWay | client/vless_bond_supervisor.go:72-102 | over any series of calls in auto mode the protocols are V2...V2 V1...V1 and a change needs an unavailable V2; the forced modes only ever use V1 and V2 respectively |
| ProtocolSelector.FallbackNeedsUnavailable | client/vless_bond_supervisor.go:88-102 | in auto mode V1 has been tried if and only if some V2 attempt was unavailable |
| FirstPathWait.OnePass | client/vless_bond_supervisor.go:427-456 | the loop's variables give the verdict that the whole history of events gives, and keep tracking it |
| FirstPathWait.WaitForFirstPath | client/vless_bond_supervisor.go:408-457 | the loop returns the verdict of the first pass that decides when each is judged by the whole history |
| FirstPathWait.UsableExactly | client/vless_bond_supervisor.go:428-430 | the wait succeeds if and only if some pass finds an active path before a cancellation, a rejection or, under V2, exhaustion |
| FirstPathWait.ContextDoneExactly | client/vless_bond_supervisor.go:431-433 | it ends with its context if and only if a cancellation decides first |
| FirstPathWait.WaitingExactly | client/vless_bond_supervisor.go:427-456 | under either protocol it goes on if and only if no pass decided |
| FirstPathWait.BadPathCountExactly | client/vless_bond_supervisor.go:415-417 | it refuses the path count if and only if that is below 1 |
| FirstPathWait.UnavailableExactly | client/vless_bond_supervisor.go:431-454 | the wait calls V2 unavailable if and only if the protocol is V2 and, before any active path, cancellation or rejection, the expected paths have all failed or the still running grace has ended |
| FirstPathWait.EveryPathFailedExactly | client/vless_bond_supervisor.go:435-454 | when V2 is given up, every expected path has failed if and only if a failure decides, or the last of them failed in an earlier pass that found an active path |
| FirstPathWait.UnavailableBeforeEveryPathFailed | client/vless_bond_supervisor.go:435-438 | one failed path of two and the end of the grace make V2 unavailable |
| FirstPathWait.RejectionIsFinal | client/vless_bond_supervisor.go:439-442 | a rejection received by an undecided wait is what the wait returns, whatever would come after it, under either protocol |
| ProtocolFallback.FallbackExactly | client/vless_bond_supervisor.go:88-102 | over any series of create calls in auto mode, V1 is tried if and only if in some call V2 ran out as UnavailableExactly says, with no path, no cancellation and no rejection before |
| ProtocolFallback.CreateYieldsGeneration | client/vless_bond_supervisor.go:88-102 | a create call yields the generation of the setup it ends with if and only if that gets a path before anything else decides and its sessions come up; that setup is the V1 one exactly after V2 was probed in auto mode and ran out |
| ProtocolFallback.SupervisedGenerationsAreCleaned | client/vless_bond_supervisor.go:486-490 | in every run of the supervisor over the selector over the generation setup at most one generation is live, none is cleaned twice, and between generations every one has been cleaned |
| BondSupervisor.OneGenerationAtATime | client/vless_bond_supervisor.go:284-333 | in every run at most one generation is live besides those returned with an error, none is cleaned twice, and between generations all are cleaned if and only if no factory call returned both |
| BondSupervisor.SlotHoldsTheLiveGeneration | client/vless_bond_supervisor.go:313-319 | the slot holds only the live generation, and the session gauge is 0 or 1, both clear between generations |
| BondSupervisor.BlockedWaiterMeansEmptySlot | client/vless_bond_supervisor.go:259-279 | a waiter blocked on a channel still open implies an empty slot; with a generation there, its next two steps take it |
| BondSupervisor.ExitsOnlyWhenCancelled | client/vless_bond_supervisor.go:291-333 | in every run the supervisor ends only after its context is done |
| BondSupervisor.SupervisorGoesOn | client/vless_bond_supervisor.go:291-333 | in every run, without a cancellation each step takes it one nearer to its next factory call, and from there on with the generation it got or to its retry delay; with one it ends where it looks |
| BondSupervisor.WaiterSteps | client/vless_bond_supervisor.go:259-274 | a waiter gives up only when cancelled and gets only what is in the slot |
| BondSupervisor.SessionSlot.NotifyLocked | client/vless_bond_supervisor.go:276-279 | a channel is closed only once, every channel but the new one is closed, the new one open |
| BondSupervisor.SessionSlot.PublishGeneration | client/vless_bond_supervisor.go:237-242 | keeps all earlier channels closed and the current one open, and does to the slot what the supervisor's publishing step does |
| BondSupervisor.SessionSlot.ClearGeneration | client/vless_bond_supervisor.go:244-251 | keeps the channels so and does to the slot what the supervisor's clearing step does |
| BondSupervisor.Generation.Fail | client/vless_bond_supervisor.go:142-152 | the first failure is kept whatever comes later |
| BondSupervisor.Generation.Close | client/vless_bond_supervisor.go:219-225 | however often it is called, the cleanup has run exactly once |
| RetryDelay.BackOff | client/vless_bond_supervisor.go:536-545 | the doubling loop yields min(30 s, 2^attempt s), with negative attempts as 0 |
| RetryDelay.Delays | client/vless_bond_supervisor.go:535-545 | the base delays are 1, 2, 4, 8 and 16 seconds and then 30 |
| RetryDelay.GenerationRetryDelay | client/vless_bond_supervisor.go:535-548 | the delay lies between half the base delay and the base delay |
| TokenFile.TokenFileRoundTrip | sessionauth/sessionauth.go:61-79 | a written token file loads as its token exactly when the token is not all zeroes |
| TokenFile.HexDecodeMeans | sessionauth/sessionauth.go:69-72 | a text decodes to bytes if and only if those encode to it in lower case |
| TokenFile.TokenLoadsExactly | sessionauth/sessionauth.go:64-79 | a file loads as a token if and only if, trimmed, it is that token's 64 hexadecimal digits in either case and the token is not all zeroes |
| TokenFile.RacingCreatorsAgree | sessionauth/sessionauth.go:83-133 | with non-zero random tokens, all racing creators that return have the token in the file, and exactly one reports created |
| TokenFile.OnlyIoErrorsFail | sessionauth/sessionauth.go:83-133 | no creator ever meets a missing, partial or malformed file; only I/O errors make it fail |
| TokenFile.ExistingFileIsLoaded | sessionauth/sessionauth.go:88-91 | with the file there a process returns its token and creates nothing |
| TokenFile.AbsentFileIsCreated | sessionauth/sessionauth.go:96-132 | without it a process left alone publishes the token it drew and returns it as created |
| TokenFile.SecondLinkLoadsTheFirst | sessionauth/sessionauth.go:125-129 | a process whose link comes second returns the token that came first |
| SessionPool.Pool.constructor | client/main.go:1836-1840 | a new pool is empty |
| SessionPool.RemoveUndoesAdd | client/main.go:1849-1866 | adding a session and removing it later undoes the addition: what was added before and after stays, in order |
| SessionPool.Pool.Remove | client/main.go:1856-1866 | exactly the first occurrence leaves, and the gauge follows the length |
| SessionPool.Pool.Candidates | client/main.go:1874-1893 | the result is the open sessions stably sorted by load from where the counter points; an empty pool leaves the counter alone |
| SessionPool.OpenFrom | client/main.go:1881-1888 | the loop collects the open sessions of the rotated pool in order |
| SessionPool.StableSort | client/main.go:1889-1891 | the result is ordered by load and keeps the order of the input among equals |
| SessionPool.StableSortUnique | client/main.go:1889-1891 | a stable sort is determined by its input, so any stable algorithm gives the same order |
| SessionPool.StableSortPermutes | client/main.go:1889-1891 | a stable sort loses and repeats nothing |
| SessionPool.CandidatesAreTheOpenSessions | client/main.go:1868-1893 | candidates contain each open session exactly as often as the pool and no closed one |
| SessionPool.EqualLoadsRotate | client/main.go:1868-1873 | with all sessions open and equally loaded the result is the pool rotated to the counter |
| SessionPool.CandidateRound | client/main.go:1874-1893 | n successive candidates calls over n distinct open sessions, equally loaded at each call, put each first exactly once if and only if the counter does not wrap on the way at a place n does not divide |
| SessionPool.EachSessionFirstOnce | client/main.go:1881-1888 | the same if-and-only-if for the places the wrapping counter points at |

## Left out

- TURN, DTLS, KCP, smux and Reed-Solomon: foreign libraries; a connection is a source of arbitrary read results and a sink with success, transient or permanent outcomes.
- Error-text classification in isPermanentPathError: a given property of a write's outcome.
- VK authentication, credentials, captcha solving and browser proxying: third-party behaviour.
- Real time: a timer may fire at any step after it is armed; the lengths of the grace periods play no part.
- AddConn with a nil connection: it closes a fresh channel and touches nothing else.
- BondGroup.VlessBondGroup.ClearWindowSetter: tells sessions apart by an id, which stands for the source's comparison of interface values.
- MetricsHistory.Registry.OpenPath: allocating the id and entering the path are one step, although the source allocates before it takes the lock; nothing can name the path in between.
- LeaseHandover.FlagsFollowHandOver: what add does before AddConn is one step that may fail; the manager's own races are BondManager's subject.
- BackendGate.CountersAreSlotsHeld: nil gates, sessions and leases, which are refused without touching a counter, are not modelled.
- Write-latency sampling of one write in 64 (BeginWrite): whether a write is sampled is a parameter.
- The retry attempt counter of superviseVLESSBond and its reset after a stable generation: the delay before a retry plays no part in the supervisor's steps.
- The zero-path timer inside vlessBondGeneration.wait: the supervisor's wait may end at any step.
- Reading the token file through symbolic links, other modes or an emptied path: the creators start from an absent path and nothing is deleted.
- Records that reach the reader through a failing connection: only delivered records are parsed.
- Flag parsing, diagnostics, certificates, the benchmark runner, scripts and packaging: configuration with shallow properties.
