# VibeSync: a verified model of the synchronized room

VibeSync keeps a group watching one video in step. The Sync Service owns each room's clock: a sample
of media time and wall time with a rate, an epoch counter, a fencing token and a host. It elects
hosts, applies commands, streams frames to subscribers over lossy channels and answers reconnecting
clients from a bounded ring. The Playback Service mirrors the state through an outbox table, a Kafka
topic and an idempotent consumer, and through a fenced call. Around it stand the Room Service (members,
roles, grants), the Media Service (the queue table) and the Auth Service (rotating refresh tokens).

The project models this logic and proves what holds over every run of it. Where the source updates
objects or tables in place, a class with the same fields does, and each method is proved against a
function on values; the theorems are about runs of those functions.

| file | what it holds |
|---|---|
| SyncState.dfy, CommandLaws.dfy | the clock sample, its projections, the commands and what rules after a run of them |
| Heartbeat.dfy, Smoothing.dfy, Statistics.dfy, SnapshotStats.dfy, Controller.dfy | offset and delay estimates, medians and confidence, the drift controller |
| RoomServer.dfy, RoomSync.dfy | the room server as a state machine, and the imperative server proved against it |
| ServerRuns.dfy, ServerGuarantees.dfy, Election.dfy, ElectionRuns.dfy | the protocol invariant and what follows for whole runs |
| SyncClient.dfy, ClientLink.dfy, ClientScreen.dfy, Drops.dfy, Recovery.dfy | the client's fold, the connection in every interleaving, what a client shows, dropped frames, recovery from the ring |
| Playback.dfy, Pipeline.dfy, Relay.dfy, Delivery.dfy, ServerToReplica.dfy, EndToEnd.dfy | the replica, the path to it, and both ends together |
| Permissions.dfy, Membership.dfy, MembershipRules.dfy, Authorization.dfy | grants as a mask, the room tables, who may command |
| Queue.dfy | the queue table against plain sequences |
| RefreshTokens.dfy, RefreshRules.dfy, RotationChain.dfy | token rotation, its answers, and the chain every run keeps |

Choices the source leaves to the runtime are part of the events: the order a map is walked in, the rows
a query returns among equals, the order rows are renumbered in, whether a statement or a commit
fails. A theorem over all events is a theorem over all such choices.

## Where the code departs from what it promises

Each of these is stated as the exact condition under which the promise holds, with a run or an input
where it does not.

- The position a client projects goes back at a re-anchoring unless a whole number of milliseconds was
  played; only the server's truncated anchor never does (`CommandKeepsPositionIff`, `ReanchoringStepsBack`).
- Hand-over notices are broadcast but not put in the ring, so a replay can leave a client with the old
  host (`RecoverCompleteIff`, `HandOverMissedByReplay`).
- A room paused for want of a host is meant to stop "at its current position" (docs/sync/algorithm.md:133);
  it falls back to the last sample (`OrphanPauseFallsBack`, `OrphanedRoomRewinds`). A drift correction
  likewise moves from the sample, not from the projected position (`NudgeJumps`, `NudgeRewinds`).
- A discontinuity ends a tick before the host check, so an owner who is present but far off does not get the
  host role back (`TickOutcome`, `OwnerKeptOut`).
- The successor is documented as the peer longest present, chosen deterministically
  (docs/sync/algorithm.md:131, docs/sync/algorithm.md:144); the code takes the one whose last heartbeat is
  oldest and leaves ties to the map's order (`LongestPresentElectedIff`, `LatecomerElected`,
  `SelectionUniqueIff`, `TiedSelections`).
- The projection used for heartbeats ignores the status, so a fresh room, paused at rate 1.0, is answered
  with a moving clock (`HeartbeatPositionIff`, `FreshRoomAnswersMovingClock`).
- A lost update followed by a hand-over notice leaves a client at the current epoch with an old state
  until the next full frame (`LostUpdateThenMigrationIff`, `LoadHiddenByHandOver`, `SnapshotHealsDrops`).
- Replica events overwrite the epoch unconditionally, so they can reopen it to an older command
  (`EventReopensIff`, `EventBreaksConvergence`).
- Reuse of a refresh token is meant to mark its whole family (docs/adr/0011-refresh-token-rotation-and-reuse-detection.md:44);
  the marking is in the transaction that the reported error rolls back, so it never survives
  (`NothingEverCompromised`, `ReuseLeavesFamilyAlive`, `FamilySurvivesReuse`).
- "Nobody can kick the owner" holds of the owner role, not of the owner (`OwnerKickedIff`, `OwnerHoldsRoleIff`,
  `OwnerKickedByModerator`), and the role column is narrower than the value checked (`OwnerRowsKeptIff`,
  `SecondOwnerRow`, `OwnerKickedBySecondOwner`).
- Renumbering the queue after a removal goes through only if the rows are visited in ascending order, since
  the primary key is checked row by row (`RemoveDeletesIff`, `DescendingVisitConflicts`).
- A restart empties the replica's cache but not the dedupe keys, so a room is missing until its next event
  (`RestartShowsLastIff`, `RestartForgets`); a crash between setting a key and running the handler loses that
  event for good (`CrashLosesEvent`, `CrashedRoomNeverAppears`).

## Model

| member | source | states |
|---|---|---|
| `SyncStates.CommandsKeepRateOk` | apps/sync-service/internal/domain/state.go:86-126 | from a rate of zero or within 0.25 to 4, every command leaves such a rate, whatever rate it asked for |
| `SyncStates.CommandContinuous` | apps/sync-service/internal/domain/state.go:86-126 | a command that does not jump re-anchors at the status-aware position: nothing is gained and less than a millisecond is lost |
| `SyncStates.CommandKeepsPositionIff` | apps/frontend/src/hooks/useSyncStream.ts:174-178 | the exact position a client projects is unmoved by such a command if and only if a whole number of milliseconds was played since the sample |
| `SyncStates.ReanchoringStepsBack` | apps/frontend/src/hooks/useSyncStream.ts:174-178 | otherwise it steps back: at rate 1.5 a Next after 1 ms takes it from 1.5 to 1.0 |
| `SyncStates.RunsNeverRewind` | apps/sync-service/internal/domain/state.go:86-126 | over any run of Play, Pause, SetRate, Next and Previous with a non-decreasing clock the truncated anchor of the server never goes back |
| `SyncStates.RunsLoseLessThanOneMsEach` | apps/sync-service/internal/domain/state.go:86-126 | against the integral of the effective rate, n re-anchorings lose less than n ms and gain nothing, whatever the rates in between, and lose nothing if and only if each comes at a whole millisecond |
| `SyncStates.PositionSlipsLessThanOneMsEach` | apps/frontend/src/hooks/useSyncStream.ts:174-178 | so over any such run the exact position slips back by less than 1 ms a command |
| `SyncStates.IdealTravelAtOneRate` | apps/sync-service/internal/domain/state.go:50-59 | at an unchanged effective rate the integral is one product |
| `SyncStates.ReanchoringVersusUnbroken` | apps/sync-service/internal/domain/state.go:50-59 | n re-anchorings at an unchanged rate lie within n ms below one unbroken projection and never above it |
| `SyncStates.SteppingBackGains` | apps/sync-service/internal/domain/state.go:50-59 | a wall clock that steps back is where re-anchoring gains: by exactly the step times the rate |
| `SyncStates.HeartbeatPositionIff` | apps/sync-service/internal/domain/state.go:50-59 | the rate-only projection equals the status-aware position if and only if the room plays, the rate is zero, or less than a whole millisecond has accrued |
| `CommandLaws.RunStamps` | apps/sync-service/internal/domain/state.go:86-126 | after any run of commands the sample is taken at the last one, each opened an epoch, and host, token and owner are as before |
| `CommandLaws.LastGoverningCommandRules` | apps/sync-service/internal/domain/state.go:93-124 | the last command that starts, stops or sets the rate rules: after Pause or LoadMedia the room is paused and its position is the same at every instant; after an accepted SetRate it gains elapsed time times that rate; after Play at the rate it had, 1.0 from none |
| `CommandLaws.PlayFromRest` | apps/sync-service/internal/domain/state.go:94-99 | with a stop the last word before it, a Play plays at 1.0 |
| `CommandLaws.JumpLands` | apps/sync-service/internal/domain/state.go:103-120 | a seek lands where it says; a load is at zero of the media named |
| `CommandLaws.NoJumpStays` | apps/sync-service/internal/domain/state.go:86-92 | any other command leaves the position at the whole millisecond it was at |
| `CommandLaws.StoppedStandsThere` | apps/sync-service/internal/domain/state.go:100-102 | a room stopped and neither started nor moved since stands at every instant where it stopped |
| `CommandLaws.NoLoadKeepsMedia` | apps/sync-service/internal/domain/state.go:114-120 | without a load the media stays |
| `CommandLaws.LastLoadRules` | apps/sync-service/internal/domain/state.go:114-120 | the media is the last one loaded |
| `Heartbeats.ClientHeartbeat.constructor` | apps/sync-service/internal/domain/heartbeat.go:64-102 | a new record has no baseline and no estimates |
| `Heartbeats.ClientHeartbeat.Update` | apps/sync-service/internal/domain/heartbeat.go:64-102 | the record becomes the specified one: first sample taken as is, later ones smoothed, zero re-initialised |
| `Heartbeats.RecordBaseline` | apps/sync-service/internal/domain/heartbeat.go:64-102 | after any exchanges the baseline is the last exchange |
| `Heartbeats.SampleMeasures` | apps/sync-service/internal/domain/heartbeat.go:64-102 | with a constant skew the delay sample is the two path delays and the offset sample errs by half their difference (section 8 of RFC 5905) |
| `Heartbeats.OffsetErrorBound` | apps/sync-service/internal/domain/heartbeat.go:64-102 | for every run with constant skew and non-negative delays the smoothed offset is within half the smoothed delay of the skew |
| `Heartbeats.SmoothedInHull` | apps/sync-service/internal/domain/heartbeat.go:64-102 | both smoothed values stay in any interval that holds all their samples, across re-initialisation too |
| `Smoothing.SamplesFromStamps` | apps/sync-service/internal/domain/heartbeat.go:77-90 | both samples in terms of the timestamps, the delay never negative |
| `Smoothing.SmoothedIsWeightedSum` | apps/sync-service/internal/domain/heartbeat.go:92-97 | after every run both smoothed values are the sum of the samples since the last re-initialisation with weights 0.25, 0.25 x 0.75, ... back from the newest, the first taking the rest |
| `Smoothing.LastReset` | apps/sync-service/internal/domain/heartbeat.go:92-97 | every run of two or more heartbeats has such a last re-initialisation |
| `Statistics.PlaceKey` | apps/sync-service/internal/domain/heartbeat.go:139-147 | the inner loop of the in-place sort takes one element out and puts it back at its place, nothing else moves |
| `Statistics.InsertionSort` | apps/sync-service/internal/domain/heartbeat.go:136-147 | in place: sorted, and a permutation of what was there |
| `Statistics.MedianFloats` | apps/sync-service/internal/domain/heartbeat.go:132-154 | the loop computes the middle of the one sorted arrangement of its input, zero for none |
| `Statistics.MedianSplitsInHalf` | apps/sync-service/internal/domain/heartbeat.go:132-154 | at least half of the values lie at or below the median and at least half at or above |
| `Statistics.MaxAbsFloats` | apps/sync-service/internal/domain/heartbeat.go:158-170 | the result bounds every magnitude and is attained, zero for none |
| `Statistics.ComputeConfidence` | apps/sync-service/internal/app/room_sync.go:361-384 | the loop computes the specified score, within 0 to 100 |
| `Statistics.StatisticsIgnoreOrder` | apps/sync-service/internal/domain/heartbeat.go:132-170 | median, maximum magnitude and confidence are the same for every rearrangement of their input |
| `Statistics.ClampInt32` | apps/sync-service/internal/app/room_sync.go:427-436 | the conversion saturates at 32 bits and truncates toward zero in between |
| `Statistics.BuildStats` | apps/sync-service/internal/app/room_sync.go:570-591 | the walk over the heartbeat map visits each record once and yields the specified statistics for that order |
| `Statistics.SnapshotStatsIgnoreOrder` | apps/sync-service/internal/app/room_sync.go:570-591 | a snapshot's statistics are the same for every order the map is walked in |
| `SnapshotStats.SpreadIsMeanSquare` | apps/sync-service/internal/app/room_sync.go:371-379 | the spread is the mean squared distance from the mean |
| `SnapshotStats.ConfidencePoints` | apps/sync-service/internal/app/room_sync.go:361-384 | twenty points a peer up to five, a hundred beyond, half of that when more than one delay is measured and their spread is above 1000 |
| `SnapshotStats.SnapshotDescribesPeers` | apps/sync-service/internal/app/room_sync.go:570-591 | in any walk: peers present counted, largest drift magnitude and middle delay of the measured ones cut to whole numbers, confidence in points |
| `Controllers.MakeGains` | apps/sync-service/internal/app/room_sync.go:86-101 | configured gains override the defaults only when positive, so the gains are positive |
| `Controllers.DriftController.constructor` | apps/sync-service/internal/domain/controller.go:30-40 | a controller starts with an empty integral |
| `Controllers.DriftController.Correct` | apps/sync-service/internal/domain/controller.go:61-100 | outcome and new integral are those of one specified cycle |
| `Controllers.DriftController.Reset` | apps/sync-service/internal/domain/controller.go:103-105 | the integral is cleared |
| `Controllers.IntegralBounded` | apps/sync-service/internal/domain/controller.go:61-105 | over any cycles and resets the integral stays within the clamp |
| `Controllers.CorrectionBounded` | apps/sync-service/internal/domain/controller.go:61-105 | over any cycles and resets every correction is within kp times threshold plus ki times clamp |
| `Controllers.ControllerOdd` | apps/sync-service/internal/domain/controller.go:61-105 | negating every drift of a run negates every correction and changes no discontinuity |
| `Controllers.IntegralAccumulates` | apps/sync-service/internal/domain/controller.go:80-92 | without resets and within the clamp the integral is the sum of drift times time of the cycles that acted |
| `Controllers.GentleOutcome` | apps/sync-service/internal/domain/controller.go:80-100 | and each of those puts out kp times its drift and ki times the sum so far |
| `Controllers.ConfiguredCycle` | apps/sync-service/internal/app/room_sync.go:86-101 | with gain, limit and threshold as configured when positive, else 0.15, 0.02, 200 and 2000: the integral an acting cycle of any run leaves and the correction it puts out |
| `Controllers.DiscontinuityIff` | apps/sync-service/internal/domain/controller.go:66-79 | a discontinuity is an acting cycle with a drift beyond the threshold, and clears the integral; a cycle without peers or confidence changes nothing |
| `RoomServer.SelectionExists` | apps/sync-service/internal/app/room_sync.go:293-306 | some answer of the walk always exists, so a tick is never stuck |
| `RoomServer.SelectionUniqueIff` | apps/sync-service/internal/app/room_sync.go:293-306 | the successor does not depend on the walk if and only if no two eligible peers share the oldest sighting |
| `RoomSyncs.RoomSync.constructor` | apps/sync-service/internal/app/room_sync.go:59-83 | a process starts from the given state with empty heartbeats, ring and subscribers |
| `RoomSyncs.RoomSync.BroadcastLocked` | apps/sync-service/internal/app/room_sync.go:613-622 | every subscriber channel gets the frame, or drops it when full; nothing else changes |
| `RoomSyncs.RoomSync.AddToRingLocked` | apps/sync-service/internal/app/room_sync.go:624-634 | the ring gains the frame under the current epoch and keeps its newest entries up to its size |
| `RoomSyncs.RoomSync.BroadcastUpdateLocked` | apps/sync-service/internal/app/room_sync.go:546-556 | the current state is broadcast and logged |
| `RoomSyncs.RoomSync.BroadcastSnapshot` | apps/sync-service/internal/app/room_sync.go:558-568 | one snapshot event of the state machine for some walk of the heartbeats |
| `RoomSyncs.RoomSync.SelectSuccessorLocked` | apps/sync-service/internal/app/room_sync.go:293-306 | whatever the iteration order, the result is an eligible peer seen longest ago, or none when none is eligible |
| `RoomSyncs.RoomSync.PreferredSuccessorLocked` | apps/sync-service/internal/app/room_sync.go:281-288 | the present owner unless excluded, else a selection |
| `RoomSyncs.RoomSync.MigrateHostLocked` | apps/sync-service/internal/app/room_sync.go:310-335 | host, epoch and token move together and the notice is broadcast but not logged |
| `RoomSyncs.RoomSync.PauseOrphanedLocked` | apps/sync-service/internal/app/room_sync.go:264-269 | a playing room is paused at a new epoch and announced, any other is left alone |
| `RoomSyncs.RoomSync.CheckHostMigrationLocked` | apps/sync-service/internal/app/room_sync.go:230-275 | the specified hand-over, pause or nothing, for the walk taken |
| `RoomSyncs.RoomSync.CorrectDriftLocked` | apps/sync-service/internal/app/room_sync.go:164-219 | the drift half of a tick: forced re-broadcast, nudge or nothing |
| `RoomSyncs.RoomSync.TickLocked` | apps/sync-service/internal/app/room_sync.go:164-219 | a tick is exactly one enabled tick event of the state machine, channels included |
| `RoomSyncs.RoomSync.CountActive` | apps/sync-service/internal/app/room_sync.go:178-184 | the loop counts the live peers |
| `RoomSyncs.RoomSync.ReferenceMeasurements` | apps/sync-service/internal/app/room_sync.go:185-197 | the owner, else the host, is the only drift reference, and only when present and measured |
| `RoomSyncs.RoomSync.NudgeLocked` | apps/sync-service/internal/app/room_sync.go:209-214 | the corrected sample at a new epoch, announced |
| `RoomSyncs.RoomSync.ApplyCommand` | apps/sync-service/internal/domain/state.go:86-126 | field by field, the state becomes the specified commanded state |
| `RoomSyncs.RoomSync.ApplyCommandLocked` | apps/sync-service/internal/app/room_sync.go:467-476 | refused below the current token with nothing changed, otherwise exactly the command event |
| `RoomSyncs.RoomSync.ProcessCommand` | apps/sync-service/internal/app/room_sync.go:439-454 | only the host is heard; then as above |
| `RoomSyncs.RoomSync.AdoptOwnerIfUnset` | apps/sync-service/internal/app/room_sync.go:342-359 | the adoption event, reporting whether anything was adopted |
| `RoomSyncs.RoomSync.ProcessHeartbeat` | apps/sync-service/internal/app/room_sync.go:389-422 | the heartbeat event and the answer computed from the state it left |
| `RoomSyncs.RoomSync.Recover` | apps/sync-service/internal/app/room_sync.go:493-514 | answers with the replay or a snapshot as specified, the unsigned subtraction wrapping around |
| `RoomSyncs.RoomSync.RegisterSubscriber` | apps/sync-service/internal/app/room_sync.go:528-534 | a fresh empty channel joins, the others are untouched |
| `RoomSyncs.RoomSync.UnregisterSubscriber` | apps/sync-service/internal/app/room_sync.go:537-542 | the channel leaves, the others are untouched |
| `RoomServer.ChannelKeepsSixteen` | apps/sync-service/internal/app/room_sync.go:613-622 | a new channel keeps the first sixteen frames offered and drops the rest |
| `RoomServer.ReplayedIff` | apps/sync-service/internal/app/room_sync.go:493-514 | the ring is replayed exactly to clients with an epoch, not ahead and behind by no more than its size, or ahead so far that the subtraction wraps |
| `ServerRuns.StepIsActs` | apps/sync-service/internal/app/room_sync.go:164-219 | every event is a short sequence of primitive acts: enter-and-announce, hand over, announce, quiet |
| `ServerRuns.StepKeepsInv` | apps/sync-service/internal/app/room_sync.go:164-634 | every event keeps the protocol invariant over state, ring, frames sent and epoch history |
| `ServerRuns.RunKeepsInv` | apps/sync-service/internal/app/room_sync.go:164-634 | so does every run |
| `ServerGuarantees.EpochDeterminesState` | apps/sync-service/internal/app/room_sync.go:593-611 | any two states of a run with one epoch are equal on the wire |
| `ServerGuarantees.EpochDeterminesFrames` | apps/sync-service/internal/app/room_sync.go:546-568 | any two frames of a run with one epoch agree, and no epoch has two hand-over notices |
| `ServerGuarantees.ChangesRaiseAndAnnounce` | apps/sync-service/internal/app/room_sync.go:546-556 | an event that changes the wire state raises the epoch, and each epoch it opens is broadcast within it |
| `ServerGuarantees.OneHostPerToken` | apps/sync-service/internal/app/room_sync.go:310-335 | tokens never fall, a host never becomes empty, and a change of host strictly raises the token |
| `ServerGuarantees.TokenNeverPassesEpoch` | apps/sync-service/internal/app/room_sync.go:310-335 | from a start where it holds, the token never exceeds the epoch |
| `ServerGuarantees.StampedCommandAcceptedIff` | apps/sync-service/internal/app/room_sync.go:459-476 | a command stamped with the token of any earlier frame is accepted if and only if no hand-over followed that frame; refused, it changes nothing |
| `ServerGuarantees.StaleTokenIff` | apps/sync-service/internal/app/room_sync.go:459-476 | the same for a token read off the state at any moment |
| `Election.TickOutcome` | apps/sync-service/internal/app/room_sync.go:230-306 | a tick decides as it should (present owner hosts, else present host stays, else the eligible peer seen longest ago and never the departed one, else a room with a departed host does not play) if and only if no discontinuity cuts it short or no present owner is waiting for the role |
| `ElectionRuns.PresentIffHeard` | apps/sync-service/internal/app/room_sync.go:221-228 | after every run a peer is present exactly when heard less than the timeout ago, five seconds unless configured |
| `ElectionRuns.SnapshotCountsHeard` | apps/sync-service/internal/app/room_sync.go:570-591 | after every run a snapshot counts exactly the peers heard less than the timeout ago |
| `ElectionRuns.ElectedByWhatWasHeard` | apps/sync-service/internal/app/room_sync.go:293-306 | after every run, with neither owner nor host present, the role goes to a candidate other than the departed host, last heard no later than any other, under the next token |
| `ElectionRuns.OwnerIsFirstNamed` | apps/sync-service/internal/app/room_sync.go:342-359 | after every run the owner is the first one named, and after an adoption there is a host |
| `ElectionRuns.EpochStartIff` | apps/sync-service/internal/app/room_sync.go:310-335 | the start of an epoch is stamped by accepted commands and changes of host, and by nothing else |
| `ElectionRuns.DriftIsLead` | apps/sync-service/internal/app/room_sync.go:408-412 | the drift recorded is the client's lead over the room's whole position plus the offset |
| `ElectionRuns.OwnerKeptOut` | apps/sync-service/internal/app/room_sync.go:199-206 | a run: the owner returns far off, is present, and no tick gives them the host role back |
| `ElectionRuns.RecordsAreHeard` | apps/sync-service/internal/app/room_sync.go:389-422 | after every run the records are those of the users heard, each last seen when last heard |
| `ElectionRuns.LongestPresentElectedIff` | apps/sync-service/internal/app/room_sync.go:293-306 | after every run the peer elected is the longest present if and only if no eligible peer was heard before it and again no earlier than it was last heard |
| `ElectionRuns.LatecomerElected` | apps/sync-service/internal/app/room_sync.go:293-306 | a run: the peer there first is passed over for one that came later |
| `ElectionRuns.TiedSelections` | apps/sync-service/internal/app/room_sync.go:293-306 | a run: two peers last heard at one instant, and either may be selected |
| `Election.QuietTickIff` | apps/sync-service/internal/app/room_sync.go:230-271 | with drift correction off a tick changes nothing if and only if no present owner is waiting for the role and the host is present, or nobody can take over and the room has no host or does not play |
| `Election.SecondTickChangesNothing` | apps/sync-service/internal/app/room_sync.go:230-306 | with correction off a second tick at the same instant changes nothing, whatever the walks |
| `Election.ElectionTerminates` | apps/sync-service/internal/app/room_sync.go:164-306 | over any number of undisturbed ticks each peer is elected at most once, all present at the start, and the room pauses at most once |
| `Election.OrphanPauseFallsBack` | apps/sync-service/internal/app/room_sync.go:264-269 | pausing an orphaned room drops the position by exactly what was played since the last sample; it stays if and only if nothing was; there the room stands, in answers to heartbeats too |
| `Election.OrphanedRoomRewinds` | apps/sync-service/internal/app/room_sync.go:264-269 | a run: a fresh room played for any time with no host present is taken back to zero by the next tick |
| `Election.FreshRoomAnswersMovingClock` | apps/sync-service/internal/app/service.go:154-159 | a fresh room stands at zero, yet the projection answered is the wall clock |
| `Election.TickCorrects` | apps/sync-service/internal/app/room_sync.go:163-217 | a tick corrects nothing with fewer than two peers or 30 points of confidence, the points wrapping at 32 bits; otherwise the controller takes up the drift of the owner, else the host, over one heartbeat interval, a discontinuity is announced unmoved, and a correction moves a playing room's sample back |
| `Election.NudgeJumps` | apps/sync-service/internal/app/room_sync.go:209-214 | the exact jump of the position at a drift correction; it is the correction alone if and only if no time was played since the sample |
| `ElectionRuns.NudgeRewinds` | apps/sync-service/internal/app/room_sync.go:209-214 | a run: a second into playing, a correction of 153 ms takes the position back by 1153 ms |
| `SyncClients.SyncStream.constructor` | apps/frontend/src/hooks/useSyncStream.ts:39-43 | a client starts with no state |
| `SyncClients.SyncStream.ApplyState` | apps/frontend/src/hooks/useSyncStream.ts:54-64 | a full frame replaces the state unless its epoch is older |
| `SyncClients.SyncStream.ApplyMigration` | apps/frontend/src/hooks/useSyncStream.ts:67-78 | a notice re-stamps host, token and epoch of the state held unless it is older |
| `SyncClients.SyncStream.HandleFrame` | apps/frontend/src/hooks/useSyncStream.ts:80-94 | dispatch by kind of frame |
| `SyncClients.SyncStream.HandleFrames` | apps/frontend/src/hooks/useSyncStream.ts:130-148 | frames folded in order |
| `SyncClients.FoldBounded` | apps/frontend/src/hooks/useSyncStream.ts:54-94 | folding never lowers the client's epoch and never passes the newest frame |
| `SyncClients.FoldHarmless` | apps/frontend/src/hooks/useSyncStream.ts:54-94 | frames no newer than the state held that agree with the history change nothing |
| `SyncClients.HandledFollows` | apps/frontend/src/hooks/useSyncStream.ts:54-94 | a client in step with the server stays in step on the next frame |
| `SyncClients.LostUpdateThenMigrationIff` | apps/frontend/src/hooks/useSyncStream.ts:67-78 | after a dropped update a hand-over notice makes the epochs equal, but the states equal if and only if the lost update had changed only who hosts |
| `ClientLink.ClientRefinesServer` | apps/sync-service/internal/app/handlers.go:23-69 | in every interleaving of registering, snapshot, forwarding, delivery, drops, disconnection and recovery the client never runs ahead, and a drained streaming client holds the server's state unless a frame was dropped since the last full one |
| `ClientScreen.ProjectedIsPosition` | apps/frontend/src/lib/sync.ts:19-24 | the projection a client computes from what the server sends is the position of the server's state |
| `ClientScreen.SentShowsRoom` | apps/sync-service/internal/app/room_sync.go:593-611 | what the server sends of a state has its every field |
| `ClientScreen.DrainedClientShowsRoom` | apps/frontend/src/hooks/useSyncStream.ts:174-178 | after every run a drained client with no frame dropped has status, rate, sample, epoch, token, media and host of the server's state, and projects its position at every instant |
| `ClientScreen.NoticesTellTheChange` | apps/sync-service/internal/app/room_sync.go:310-335 | over every run each hand-over notice names the hosts before and after and the next token, and nothing else changed with it |
| `ClientLink.SnapshotHealsDrops` | apps/sync-service/internal/app/handlers.go:23-69 | after any drops the next snapshot that finds room restores equality |
| `Drops.ClientMirrorsIff` | apps/frontend/src/hooks/useSyncStream.ts:54-94 | whatever was dropped, a client shows the sample of the last full frame it took over, and holds the server's state if and only if it is at the server's epoch and that sample is still the server's |
| `Drops.LoadHiddenByHandOver` | apps/frontend/src/hooks/useSyncStream.ts:67-78 | a run: sixteen frames fill the channel, a load is dropped, a hand-over gets in; drained, the client is at the server's epoch with the old media |
| `RecoveryReplay.RingIsTailOfLog` | apps/sync-service/internal/app/room_sync.go:624-634 | in every run the ring is the last min(n, size) full frames broadcast, in epoch order |
| `RecoveryReplay.ReplayedFrames` | apps/sync-service/internal/app/room_sync.go:493-514 | what is replayed was broadcast and is newer than the epoch asked from |
| `RecoveryReplay.NewestIsCurrentIff` | apps/sync-service/internal/app/room_sync.go:624-634 | the newest ring entry is of the current epoch if and only if the last frame broadcast was not a hand-over |
| `RecoveryReplay.RecoverCompleteIff` | apps/sync-service/internal/app/room_sync.go:493-514 | after any run and for any client no newer than the server, folding the answer yields the current state if and only if the client held it, got a snapshot, or was behind and the last frame broadcast was not a hand-over |
| `RecoveryReplay.HandOverMissedByReplay` | apps/sync-service/internal/app/room_sync.go:310-335 | a run where the replay after a hand-over is empty though the client holds the old host |
| `Playback.PlaybackRoom.constructor` | apps/playback-service/internal/domain/playback.go:15-38 | the zero record |
| `Playback.PlaybackRoom.ApplyFromEvent` | apps/playback-service/internal/domain/playback.go:40-53 | an event overwrites all but media id and token and reports whether the epoch advanced |
| `Playback.PlaybackRoom.ApplySyncCommand` | apps/playback-service/internal/domain/playback.go:61-95 | applied exactly when (token, epoch) is lexicographically above the cached pair |
| `Playback.RoomCache.constructor` | apps/playback-service/internal/app/service.go:88-90 | an empty cache |
| `Playback.RoomCache.ApplyFromEvent` | apps/playback-service/internal/app/service.go:93-102 | creates the room on first sight, applies the event, leaves other rooms alone |
| `Playback.RoomCache.ApplySyncCommand` | apps/playback-service/internal/app/service.go:117-131 | the same for a fenced command |
| `Playback.CommandsReachMaximum` | apps/playback-service/internal/domain/playback.go:61-95 | folding commands ends at the lexicographic maximum with its payload, or never leaves the start |
| `Playback.CommandsConverge` | apps/playback-service/internal/domain/playback.go:61-95 | two deliveries of one set of commands, reordered and duplicated at will, leave the same state |
| `Playback.LastTakenRules` | apps/playback-service/internal/domain/playback.go:40-95 | however events and commands interleave, the sample shown is that of the last input taken: every event, and a command whose token is newer, or whose epoch is under the same token |
| `Playback.LastCommandNamesMedia` | apps/playback-service/internal/domain/playback.go:40-95 | and media and token are those of the last command taken |
| `Playback.TokenNeverDecreases` | apps/playback-service/internal/domain/playback.go:40-95 | with events interleaved the token never decreases |
| `Playback.EventReopensIff` | apps/playback-service/internal/domain/playback.go:40-53 | after an event, a refused command is let in if and only if it has the cached token and the event's epoch is below it |
| `Playback.EventBreaksConvergence` | apps/playback-service/internal/domain/playback.go:40-95 | two commands around one older event, in either order: a new replica ends in two different states |
| `Pipeline.KeyInjective` | libs/kafka/idempotency.go:100-102 | two events of a topic never share a dedupe key |
| `Pipeline.StepKeepsInv` | apps/sync-service/internal/infra/events/events.go:271-296 | staging, fetching, publishing, failing, rolling back, committing, consuming and rewinding keep the pipeline invariant |
| `Pipeline.RunKeepsInv` | apps/sync-service/internal/infra/events/events.go:271-296 | so does every run |
| `Relays.Relay.Append` | apps/sync-service/internal/infra/postgres/outbox_writer.go:21-47 | the row is added unpublished at the end; on a row the outbox may take this is the staging step |
| `Relays.Relay.FetchUnpublished` | apps/sync-service/internal/infra/postgres/outbox_writer.go:62-83 | the loop returns some answer of the query: unpublished rows, oldest first, up to the limit |
| `Relays.Relay.PublishBatch` | apps/sync-service/internal/infra/events/events.go:284-291 | the publishing loop is a run of publish steps that ends complete, or idle at the first failure |
| `Relays.Relay.DrainOnce` | apps/sync-service/internal/infra/events/events.go:271-296 | however it ends, a drain is a run of pipeline steps, and rows are marked only if it committed all of them |
| `Relays.Consumer.constructor` | apps/playback-service/internal/app/consumer.go:14-25 | a consumer starts with nothing seen and an empty cache |
| `Relays.Consumer.Handle` | apps/playback-service/internal/app/consumer.go:27-43 | an event naming a room overwrites that replica and no other, one without a room id is skipped |
| `Relays.Consumer.HandleOnce` | libs/kafka/idempotency.go:61-84 | an id is handled on first sight only; without an id, or with the store down, always |
| `Relays.Consumer.HandleRow` | libs/kafka/idempotency.go:61-95 | delivering a row through dedupe and handler is exactly the consuming step |
| `Delivery.AppliedIsPrefix` | libs/kafka/idempotency.go:61-84 | the events applied to a room are a prefix of those staged for it, in order, none twice |
| `Delivery.ReplicaAppliesPrefix` | apps/playback-service/internal/app/consumer.go:27-43 | after any failures, repeats and redeliveries that holds of every room and its replica shows the last one applied |
| `Delivery.ReplicaEpochAdvances` | apps/playback-service/internal/app/consumer.go:27-43 | along every run the replica's epoch never goes back |
| `Delivery.FullDeliveryReachesNewest` | apps/playback-service/internal/app/consumer.go:27-43 | with everything published and read, the replica shows the newest staged state |
| `Delivery.RestartShowsLastIff` | apps/playback-service/internal/app/service.go:88-90 | after a restart a replica shows the last event applied since, and the last applied at all if and only if there was one since or never one |
| `Delivery.RestartForgets` | apps/playback-service/internal/app/service.go:88-90 | a run: an event is applied, the process restarts, the message is read again, and the room stays missing |
| `Delivery.CrashLosesEvent` | libs/kafka/idempotency.go:61-84 | a crash between setting the key and running the handler loses the event: whatever follows, it is staged and never applied |
| `Delivery.CrashedRoomNeverAppears` | libs/kafka/idempotency.go:61-84 | a run: one message, that crash, the message read again, and the room never appears |
| `ServerToReplica.RunGivesOnePayloadEach` | apps/playback-service/internal/domain/playback.go:61-95 | commands carrying states of one server run never have two payloads for one (token, epoch) |
| `ServerToReplica.RunCommandsConverge` | apps/playback-service/internal/app/service.go:117-131 | so they converge in any order and multiplicity |
| `ServerToReplica.StagedEpochsInOrder` | apps/sync-service/internal/app/room_sync.go:637-660 | later states of a run never stage a smaller epoch |
| `ServerToReplica.ReplicaShowsServerState` | apps/sync-service/internal/app/room_sync.go:637-660 | end to end: a replica given n of a room's events shows the n-th state the server staged, and the newest once all are delivered |
| `EndToEnd.StagingIsStageable` | apps/sync-service/internal/app/room_sync.go:637-660 | staging the current state of the server never stages a smaller epoch than before |
| `EndToEnd.ReplicaFollowsServer` | apps/sync-service/internal/app/room_sync.go:637-660 | in every interleaving of server events, staging and pipeline steps the replica shows a state the server has had, the n-th staged after n events, never newer than the server, and the newest staged once all is read |
| `EndToEnd.ReplicaCopiesServerState` | apps/sync-service/internal/app/room_sync.go:637-660 | in every interleaving the replica has sample, rate, host, epoch and status of the last state given to it, and its position at every instant |
| `EndToEnd.AppliedCommandCopies` | apps/playback-service/internal/domain/playback.go:61-95 | an applied call copies the state it was made of, media and token included |
| `Permissions.MaskIsBits` | apps/room-service/internal/domain/permissions.go:14-40 | value v of a grant is stored as bit v - 1, unknown values as none |
| `Permissions.FromProto` | apps/room-service/internal/domain/permissions.go:34-40 | the loop sets exactly the bits of the known values listed |
| `Permissions.ToProto` | apps/room-service/internal/domain/permissions.go:43-51 | the loop lists exactly the known values whose bit is set, ascending |
| `Permissions.ListRoundTrip` | apps/room-service/internal/domain/permissions.go:34-51 | list to mask to list keeps exactly the known values |
| `Permissions.MaskRoundTripIff` | apps/room-service/internal/domain/permissions.go:34-51 | mask to list to mask is the identity if and only if no unknown bit is set |
| `Membership.RoomService.CreateRoom` | apps/room-service/internal/app/lifecycle.go:22-84 | the answer and the new tables: owner as first member, count one |
| `Membership.RoomService.JoinRoom` | apps/room-service/internal/app/lifecycle.go:162-231 | invite, capacity and existing membership checked in that order; a new member row and count, or nothing |
| `Membership.RoomService.LeaveRoom` | apps/room-service/internal/app/membership.go:17-55 | the owner is refused; a member loses row, grants and place in the count; a non-member changes nothing |
| `Membership.RoomService.KickMember` | apps/room-service/internal/app/membership.go:103-146 | refused by role, otherwise the target loses row, grants and place in the count |
| `Membership.RoomService.UpdateMemberRole` | apps/room-service/internal/app/membership.go:149-193 | refused by role, otherwise the role is stored in its 16-bit column |
| `Membership.RoomService.GrantPermissions` | apps/room-service/internal/app/permissions.go:17-56 | only the owner, never to themselves, only to members; the mask is replaced |
| `Membership.RoomService.UpdateRoom` | apps/room-service/internal/app/lifecycle.go:234-263 | owner role or administrator; positive limits and named visibilities are stored |
| `Membership.RoomService.DeleteRoom` | apps/room-service/internal/app/lifecycle.go:266-291 | owner role or administrator; the room goes with its member and grant rows |
| `Membership.RoomService.GetMemberPermissions` | apps/room-service/internal/app/permissions.go:61-99 | the stored grants in enumeration order and whether the user owns the room |
| `Membership.CallKeepsRooms` | apps/room-service/internal/app/membership.go:24-50 | every call keeps: count equals member rows, grant rows only for members who are not the owner |
| `Membership.RunKeepsRooms` | apps/room-service/internal/app/lifecycle.go:45-78 | so does every serial run |
| `Membership.OwnerRowsKeptIff` | apps/room-service/internal/domain/room.go:205-213 | a call keeps "an owner-role row belongs to the room's owner" if and only if it is not a role update of somebody else whose value narrows to the owner role |
| `Membership.RunKeepsOwnerRows` | apps/room-service/internal/domain/room.go:205-213 | over the values of the enumeration the owner-role row is unique in every run |
| `Membership.SecondOwnerRow` | apps/room-service/internal/infra/postgres/member_repo.go:75-81 | outside them it is not: a run ends with two owner-role rows |
| `Membership.OwnerKickedIff` | apps/room-service/internal/domain/room.go:188-199 | a kick of the owner goes through if and only if their row gave up the owner role and the caller's is the owner role, or moderator above it |
| `Membership.OwnerStaysUnless` | apps/room-service/internal/app/membership.go:149-193 | an owner whose row holds the owner role keeps it through a call if and only if the call neither stores another role in it nor deletes the room |
| `Membership.LastTouchRules` | apps/room-service/internal/app/membership.go:149-193 | after every run anyone's role in any room is the one the last call to touch their row stored; no row if it removed it |
| `Membership.KickGoesThroughIff` | apps/room-service/internal/app/membership.go:103-146 | after every run a kick goes through if and only if the roles the last calls to touch both rows stored allow it |
| `Membership.OwnerHoldsRoleIff` | apps/room-service/internal/app/membership.go:149-193 | after every run the owner's row holds the owner role if and only if the last call to touch it was the creation or a role update that narrows to it |
| `Membership.OustingRuns` | apps/room-service/internal/app/membership.go:103-146 | runs that leave a room whose owner is no member of it; joining again makes them an ordinary one |
| `Membership.OwnerKickedByModerator` | apps/room-service/internal/domain/room.go:188-199 | one such run, by a moderator after the owner demoted themselves |
| `Membership.OwnerKickedBySecondOwner` | apps/room-service/internal/domain/room.go:188-199 | another, by the holder of a second owner-role row |
| `MembershipRules.MembersCameIn` | apps/room-service/internal/app/lifecycle.go:177-224 | after every run each member created the room or was let in by a join, with an account, below the limit, invited if private, and was not removed since |
| `MembershipRules.JoinLetsInIff` | apps/room-service/internal/app/lifecycle.go:177-224 | a join lets a newcomer in exactly then, as an ordinary member; otherwise nothing changes |
| `MembershipRules.PrivateMembersWereInvited` | apps/room-service/internal/app/lifecycle.go:183-192 | in a room private whenever anyone joined, every member but its creator was invited to it |
| `MembershipRules.OwnerIsCreator` | apps/room-service/internal/app/lifecycle.go:35-58 | after every run a room's owner is whoever created it last |
| `MembershipRules.PromotionIff` | apps/room-service/internal/domain/room.go:205-213 | after every run roles are changed by whoever was last stored the owner role, to any but the owner's and none |
| `MembershipRules.ManagementIff` | apps/room-service/internal/app/membership.go:210-225 | after every run administrators and whoever was last stored the owner role or a higher number manage the room |
| `MembershipRules.GrantingIff` | apps/room-service/internal/app/permissions.go:29-49 | after every run grants are the owner's to give, to members other than themselves |
| `MembershipRules.SettingsFollowCalls` | apps/room-service/internal/domain/room.go:77-143 | a limit or visibility given takes effect and stays; a new room has limit 50 and is public |
| `Membership.CapacityKeptIff` | apps/room-service/internal/domain/room.go:107-110 | a room within its limit stays within it if and only if no update lowers the limit below the count |
| `Membership.RunKeepsCapacity` | apps/room-service/internal/app/lifecycle.go:193-195 | over every run a room whose limit no update set below its count is never over it |
| `Membership.LastGrantRules` | apps/room-service/internal/app/permissions.go:29-49 | after every run a stored permission is exactly one named in the last grant not ended by a leave, a kick or a deletion |
| `Membership.GrantsNeedMembership` | apps/room-service/internal/app/membership.go:45-48 | a grant in force is held by a member who is not the owner |
| `Membership.GrantSinceLatestJoin` | apps/room-service/internal/app/lifecycle.go:196-213 | the grant in force was given during the present membership |
| `Authorization.Has` | apps/sync-service/internal/infra/roomclient/client.go:31-53 | owner or listed permission; an error for a missing room or an empty id |
| `Authorization.AuthorizeCommand` | apps/sync-service/internal/app/handlers.go:175-191 | the specified verdict |
| `Authorization.GrantsAndCommandsAgree` | apps/sync-service/internal/app/handlers.go:160-191 | after every run, a user who is neither host nor owner may issue a kind of command if and only if its permission is in their last grant in force |
| `Authorization.CommandTable` | apps/sync-service/internal/app/handlers.go:160-171 | after every run, for others than host and owner: seek by grant 1; play, pause and rate by grant 2; load, next and previous by grant 3; unknown kinds never |
| `Authorization.HostAndOwnerAlways` | apps/sync-service/internal/app/handlers.go:175-191 | host and owner always may; in a room the Room Service does not know nobody else may |
| `Authorization.OutsidersNeverCommand` | apps/sync-service/internal/app/handlers.go:175-191 | a non-member who is neither host nor owner never may |
| `Queue.QueueRepo.Add` | apps/media-service/internal/infra/postgres/queue_repo.go:23-35 | the row goes one past the largest position of the room, zero when empty, and never hits an existing key |
| `Queue.QueueRepo.Remove` | apps/media-service/internal/infra/postgres/queue_repo.go:63-78 | not found, a key conflict or the renumbered table, as specified for the order the rows are visited in; errors leave the table as it was |
| `Queue.HoldsUnique` | apps/media-service/internal/infra/postgres/queue_repo.go:38-58 | the ordered listing of a room is determined by its rows |
| `Queue.AddAppends` | apps/media-service/internal/infra/postgres/queue_repo.go:23-35 | adding appends to the sequence |
| `Queue.RemoveDeletesIff` | apps/media-service/internal/infra/postgres/queue_repo.go:63-78 | removal deletes exactly the indexed item and keeps the order of the rest if and only if the position exists and the rows above are visited in ascending order; otherwise nothing changes |
| `Queue.DescendingVisitConflicts` | apps/media-service/internal/infra/postgres/queue_repo.go:63-78 | a run: three items, the first removed, the others visited from the end: a conflict that changes nothing |
| `Queue.RemoveKeepsOthers` | apps/media-service/internal/infra/postgres/queue_repo.go:63-78 | other rooms are untouched |
| `Queue.TableRefinesSequences` | apps/media-service/internal/infra/postgres/queue_repo.go:23-78 | after every run over any rooms each room's rows are its sequence at positions 0 to n-1 |
| `RefreshTokens.SplitPresentationIff` | apps/auth-service/internal/app/refresh.go:212-218 | a string splits into a pair of halves if and only if it is their presentation and the selector has no dot |
| `RefreshTokens.AuthService.Refresh` | apps/auth-service/internal/app/refresh.go:94-207 | the answer and the table of the specified call; anything but a rotation leaves the table as it was |
| `RefreshTokens.AuthService.Logout` | apps/auth-service/internal/app/refresh.go:55-89 | an active token is revoked by its selector, and it is reported exactly when the table changed |
| `RefreshRules.RotatesIff` | apps/auth-service/internal/app/refresh.go:94-207 | a presentation rotates if and only if some row has its selector and accepts its validator, is active and unexpired, the user is active, the new row clashes with none and nothing fails |
| `RefreshRules.RotationWrites` | apps/auth-service/internal/app/refresh.go:155-200 | the row is used, one new active row of its family and user follows it, no other row changes |
| `RefreshRules.AcceptedAnswers` | apps/auth-service/internal/domain/refresh_token.go:124-152 | the answer to an accepted presentation for each status, expiry and user |
| `RefreshRules.UnacceptedAnswers` | apps/auth-service/internal/app/refresh.go:108-119 | a presentation no row accepts is invalid and changes nothing |
| `RefreshRules.MalformedAnswers` | apps/auth-service/internal/app/refresh.go:95-99 | what does not split is malformed and changes nothing |
| `RefreshRules.WrongValidatorChangesNothing` | apps/auth-service/internal/app/refresh.go:117-119 | after every run a validator no row accepts never rotates, is never taken for reuse, and changes nothing |
| `RefreshRules.LogoutRevokes` | apps/auth-service/internal/app/refresh.go:69-84 | logging out revokes the active row of the selector, whatever the validator, and no other |
| `RefreshRules.LoggedOutForGood` | apps/auth-service/internal/app/refresh.go:69-84 | a token logged out is answered as revoked ever after |
| `RotationChain.EventKeepsChains` | apps/auth-service/internal/app/refresh.go:94-207 | login, refresh and logout keep every family one chain from a single root with only the last token possibly active |
| `RotationChain.RunsKeepChains` | apps/auth-service/internal/app/refresh.go:94-207 | so does every serial run |
| `RotationChain.RunsWear` | apps/auth-service/internal/domain/refresh_token.go:183-200 | no row is removed or relabelled, and one that is not active never changes again |
| `RotationChain.RotatesAtMostOnce` | apps/auth-service/internal/domain/refresh_token.go:124-152 | a rotated token never rotates again, whatever happens in between |
| `RotationChain.NothingEverCompromised` | apps/auth-service/internal/app/service.go:112-129 | no reachable table holds a compromised token |
| `RotationChain.ReuseDetectedIff` | apps/auth-service/internal/domain/refresh_token.go:124-152 | a rotated token presented again is reported as reuse if and only if it has not expired and the database answers |
| `RotationChain.ReuseLeavesFamilyAlive` | apps/auth-service/internal/app/service.go:112-129 | a reported reuse changes nothing: the family is not marked and every other request is answered as before |
| `RotationChain.FamilySurvivesReuse` | apps/auth-service/internal/app/refresh.go:94-207 | a run: login, refresh, the spent token again; the reuse is reported and the live token still rotates |

## Left out

- Integer widths: times, epochs and tokens are unbounded, so overflow of 64-bit counters is not modelled; the
  wrap-around of Recover's subtraction, the saturation to 32 bits, the 16-bit role column and the 8-bit
  visibility are.
- Floating point: rates, estimates and gains are exact reals, so rounding is not captured.
- Restart from the periodic checkpoint: epochs may step back across processes; claims are per process lifetime.
- Several relay leaders at once, lock expiry and the time-to-live of dedupe keys: one leader, keys that stay.
- Pipeline.StepKeepsInv: assumes one room's rows are staged with increasing times, non-decreasing epochs and
  fresh ids; `EndToEnd.StagingIsStageable` discharges the epochs, clock and id generator are inputs.
- Undecodable Kafka payloads: skipped by the handler like events without a room id, of which only the latter are modelled.
- Concurrency inside the Room, Media and Auth Services: transactions are serial.
- Queue rows removed by the cascade from a deleted media item: no operation deletes media items.
- Invite codes and slugs: what a presented code resolves to is an input; room names enter by their trimmed length.
- The `left` flag of a leave reply, which the code never sets, and other reply payloads of the Room Service.
- Heartbeats with an empty user id: callers are authenticated, so ids are non-empty; Election.TickOutcome and its
  companions require it of the heartbeat map.
- Aliasing of heartbeat and room records: both are kept as values in maps, replaced on update.
- RoomSyncs.RoomSync.UnregisterSubscriber: does not model the close of the channel after its removal.
- Membership.RoomService.UpdateRoom: does not model the name, slug and description fields, which nothing else reads.
- Send times and capture times of frames, and the room id they repeat.
- MedianRTT, a second copy of the median, and Reset of a heartbeat record: easy members.
- LoadMedia of the replica, listing and lookup calls: reads and one-field writes.
- Hashing, key rotation, access tokens and sessions: validator comparison is an abstract predicate, failures are inputs.
- Closed-loop convergence of drift correction, which is off by default
  (apps/sync-service/internal/config/config.go:115): what one cycle and an undisturbed sequence of cycles put out is proved.
- Servers, drivers, configuration, telemetry, the web interface and the player loop.
