# SwarmDialer: a verified model

SwarmDialer is a SIP call-load tool. It keeps sessions of registered extensions that call each other, directly or
across the trunk between two PBXware servers, sends and measures their media, provisions the extensions it needs,
and runs benchmarks until something saturates. This project models the parts of it whose correctness is a matter of
logic and proves what they promise, for all inputs, all interleavings and all runs.

Run `dafny verify dfyconfig.toml` to check it.

## The modules

- `CallSession`, `CallSessionSafety`, `CallSessionRuns`: the goroutines of a call session as a transition system, one
  step per critical section, atomic counter operation or select; its invariant; and what follows for whole runs.
  Every counter is explained by the calls themselves: what each call has contributed at its place in `runCall` adds
  up to the counter, for all counters at once. `CallSessionStories` reads every call's end and every total off the
  events of the run. `SessionObject` is the session as an object, each of whose methods is proved to make the
  corresponding step. `MapSums` holds sums over maps.
- `Rtp`, `RtpStatistics`: a media stream from the sender's wrapping numbers through the bytes of the packets to the
  receiver's statistics and reports (RFC 3550 section 6.4.1, Appendices A.1, A.3 and A.8).
- `Text`, `Sdp`, `SdpAgreement`, `SdpOffers`: the SDP printer and parsers character by character, their round trip, the
  agreement of both ends of a call, and the choice from offers of several codecs (RFC 8866 sections 5.14, 6.6 and 6.7;
  RFC 3264 section 6.1).
- `Provisioning`: creating extensions on a server that may apply any part of a request and lose the reply while
  others take numbers too.
- `SessionCache`, `TrunkCodec`, `RemoteDial`, `Registration`: the dashboard's coordination: lazily created sessions,
  the trunk codec order shared by running batches, also composed with the call session; and progress reports that
  race each other.
- `Saturation`, `Diagnostics`: when a benchmark test stops, and how it explains its failed calls.
- `Cdr`, `Did`: reading and matching call records, and the numbers dialled across a trunk.

Whatever the outside world decides is a parameter or a free choice of the model: the order of map iteration, which
case of a select fires, how a dial ends, what a server replies, what goes wrong, what the clock says. Integers are
unbounded except where the program relies on their width, which is then written out; jitter and percentages are reals.

## What the proofs found

- The trunk state is kept per direction. A batch in the opposite direction between the same servers is not refused
  and reorders the trunks of a running batch (`TrunkCodec.KeptExactly`, `TrunkCodec.OppositeReorders`).
- `isOwnExtension` looks for its number at the front of another: number 100 held by the extension made as 1000 would
  be adopted (`Provisioning.OwnAcrossLengths`). Among numbers of one length the test is exact.
- The SDP line scanner gives up at lines of 65536 bytes, so an address longer than 65519 characters does not come back
  (`SdpAgreement.RoundTrip`).
- A late packet from before a wrap that arrives after it is read as a packet of the new cycle
  (`RtpStatistics.ReadRightlyExactly`, `RtpStatistics.LateAfterWrap`).
- The fraction lost of a report is computed in 32 bits and is wrong from 2^24 lost packets on
  (`RtpStatistics.ReportedLossExactly`, `RtpStatistics.LeapsReport`).
- A sender report that arrives while our own report is being made, 16 microseconds or more after the clock was read, is
  reported as more than 18 hours old (`RtpStatistics.DelayExactly`, `RtpStatistics.DelayFarOff`).
- A call record whose date cannot be read ends the reading of older pages and so can lose newer calls
  (`Cdr.BadDateStops`, `Cdr.BadDateLoses`). A row without a date, or a new one without an id or a duration, is an index
  out of range (`Cdr.PanicsExactly`, `Cdr.ShortRow`).
- A registration report can show counts that never held at once, and exactly when it does is known; the final ones are
  exact (`Registration.ReportHeldExactly`, `Registration.MixedReport`, `Registration.FinalCountsShown`).
- `sessionFor` takes port ranges before it knows whether it needs them, so every wait on another handler's creation
  uses up a range (`SessionCache.App.LookUpLocked`).

## Model

| member | source | states |
|---|---|---|
| `CallSessionSafety.InvStep` | internal/orchestrator/session.go:417-655 | one step of any goroutine (reserving, ramping, dialling, talking, ending, Stop, cancellation) keeps the whole invariant: who owns each extension, whose codec each callee has, what every counter is the sum of, which calls are listed, which channels are closed |
| `CallSessionSafety.WaitedFor` | internal/orchestrator/session.go:430-456 | a call that has not left its batch is counted in the batch's WaitGroup, so it never goes negative and the batch cannot be reported before the call is over |
| `CallSessionSafety.BalancedGo` | internal/orchestrator/session.go:587-655 | every counter of the session and of every batch at once changes exactly as the contributions of the moving call do |
| `CallSessionRuns.NoDoubleBooking` | internal/orchestrator/session.go:489-563 | in every reachable state an extension is unavailable exactly when one call holds it, at most one does, and no call dials itself |
| `CallSessionRuns.CalleeAnswersWithItsCallsCodec` | internal/orchestrator/session.go:581-586 | while a call is being dialled or talks, its callee's preferred codec is its own |
| `CallSessionRuns.CallsConserved` | internal/orchestrator/session.go:433-470 | in every reachable state started = answered + failed + cancelled + unresolved |
| `CallSessionRuns.BatchDone` | internal/orchestrator/session.go:457-470 | when the callback has run all calls of the batch are over, it ran once with exactly one record per call that was not cancelled, and answered + failed = pairs |
| `CallSessionRuns.DeliveredForGood` | internal/orchestrator/session.go:457-466 | the callback never runs again |
| `CallSessionRuns.QuietSession` | internal/orchestrator/session.go:410-655 | when everything has ended all extensions are free, no call is listed, causes add up to failures, and every replaced stop channel was closed once |
| `CallSessionRuns.FinishesInTime` | internal/orchestrator/session.go:417-655 | what has been started ends within a number of steps fixed by the state, however goroutines interleave |
| `CallSessionRuns.StuckOnlyWhenQuiet` | internal/orchestrator/session.go:417-655 | no deadlock: a run of finishing steps that cannot go on has ended in a quiet session |
| `CallSessionRuns.Drains` | internal/orchestrator/session.go:417-655 | from every reachable state the session can come to rest without a new batch, Stop or cancellation |
| `CallSessionRuns.StoppedByItsOwnStop` | internal/orchestrator/session.go:423-447 | a batch is stopped only by a Stop that replaced the channel it snapshotted, and did so after the snapshot |
| `CallSessionRuns.StoppedCallEnds` | internal/orchestrator/session.go:611-655 | once stopped, a ramping or answered call can always end by its own prompt steps, and its extensions are then free |
| `CallSessionStories.EndsExactly` | internal/orchestrator/session.go:434-655 | over any run: a call that is over was cancelled if and only if it was told to stop while waiting for its turn, failed with a cause if and only if its dial failed with it, and was answered if and only if its dial was and its last select ended it with just that report, a drop being a hangup from the far side |
| `CallSessionStories.CallStory` | internal/orchestrator/session.go:434-655 | these events happened to it in that order, once each, and no others did |
| `CallSessionStories.TotalsTellTheRun` | internal/orchestrator/session.go:433-655 | when everything has ended each total of the session (answered, failed, by cause, cancelled, dropped, without audio, packets sent and received) is what the events of the run are worth together |
| `CallSessionStories.BatchCounts` | internal/orchestrator/session.go:430-466 | a batch's two counts are those of its calls that ended with an answer and of the others |
| `CallSessionStories.NothingStopsUnasked` | internal/orchestrator/session.go:434-447 | no call ends early unless the session was cancelled before, or a Stop closed a channel before |
| `CallSessionStories.StopReaches` | internal/orchestrator/session.go:720-726 | a Stop that swaps out and closes a batch's channel, and the cancellation of the session, reach every started call of the batch |
| `CallSessionStories.OutsideDecides` | internal/orchestrator/session.go:434-625 | a dial can end in any way, and an answered call be ended by the far side or its duration at any moment |
| `CallSessionStories.TakesAsMany` | internal/orchestrator/session.go:489-542 | a reservation takes as many pairs as asked for or leaves too few extensions for another one |
| `CallSessionStories.CallsAreAsAsked` | internal/orchestrator/session.go:417-456 | every call has the codecs and the media of a reservation of the run |
| `SessionObject.Session.ReservePairs` | internal/orchestrator/session.go:489-542 | the two loops over the pools take exactly the pairs of the specification, distinct on one-sided pools, and mark nothing else |
| `SessionObject.Session.Release` | internal/orchestrator/session.go:557-563 | both extensions of a pair become available and nothing else changes |
| `SessionObject.Session.Stop` | internal/orchestrator/session.go:720-726 | the stop channels are left as the transition system's swap followed by its close of the channel swapped out leaves them |
| `SessionObject.Session.CloseStop` | internal/orchestrator/session.go:720-726 | the close that follows the swap never closes a closed channel, and is the transition system's close |
| `SessionObject.NewPoolsShowInit` | internal/orchestrator/session.go:489-535 | what two new pools hold is what the transition system starts from |
| `Rtp.HeaderRoundTrip` | internal/sipua/rtp.go:254-311 | the receiver reads from the bytes of any packet exactly the header the sender wrote; the payload follows it unchanged, and the second byte is the payload type without a marker |
| `Rtp.PlaysFromStart` | internal/sipua/rtp.go:254-263 | from any packet on, the whole recording is played from its start and in order before as many packets have gone by as it has frames |
| `Rtp.RtpSender.SendPacket` | internal/sipua/rtp.go:254-274 | packet k carries the wrapped k-th sequence number and timestamp and frame k of the cycle, whether or not writing succeeds; only written ones are counted |
| `Rtp.RtpReceiver.OnRTPReceived` | internal/sipua/rtp.go:313-369 | the receiver's fields after a packet are those of the specification, source change, wrap, jitter and all |
| `Rtp.RtpReceiver.ReceptionReport` | internal/sipua/rtp.go:422-475 | there is a report once a packet has come, with the specified loss, fraction lost, highest number, jitter, last sender report and delay |
| `RtpStatistics.CyclesKeptExactly` | internal/sipua/rtp.go:334-350 | a packet keeps the cycle count equal to the high half of the highest number exactly when the 16-bit cycle count does not overflow |
| `RtpStatistics.CyclesAreTheHighHalf` | internal/sipua/rtp.go:334-350 | after any run without 65536 wraps the cycle count is the high half of the highest number |
| `RtpStatistics.HighestNeverFalls` | internal/sipua/rtp.go:334-350 | within a source the highest number never decreases |
| `RtpStatistics.ReadRightlyExactly` | internal/sipua/rtp.go:334-350 | a packet is unwrapped to its true number if and only if it lies in the highest one's cycle and at most 32768 behind it, or in the next cycle and at most 32767 ahead |
| `RtpStatistics.LateAfterWrap` | internal/sipua/rtp.go:334-350 | a run in which a late packet from before a wrap makes 65533 packets count as lost although none is |
| `RtpStatistics.EndToEnd` | internal/sipua/rtp.go:254-350 | over any lossy, reordered run in the window, the sender's wrapping numbers are unwrapped to the true ones at the receiver |
| `RtpStatistics.CloseEndToEnd` | internal/sipua/rtp.go:254-350 | in the sender's own counts: as long as each new packet is at most 32767 after the latest and each late one in its cycle and at most 32768 behind, the receiver's span is the true one |
| `RtpStatistics.LossIsMissing` | internal/sipua/rtp.go:220-231 | without duplicates Expected - Received is the number of packets missing in the span, less the late ones from before the first |
| `RtpStatistics.StatisticsArePerSource` | internal/sipua/rtp.go:323-333 | after any run the statistics are those of a fresh receiver fed only the packets since the last source change |
| `RtpStatistics.JitterBounded` | internal/sipua/rtp.go:352-368 | the jitter estimate stays within 0 and half the clock rate |
| `RtpStatistics.JitterStep` | internal/sipua/rtp.go:352-368 | of two packets of a source, the second moves the estimate a sixteenth of the way towards the change in their times on the way, unless that is over half a second |
| `RtpStatistics.JitterOfTwo` | internal/sipua/rtp.go:352-368 | the same in the packets' own fields: what counts is by how much the arrivals lie further apart, or less far, than the timestamps |
| `RtpStatistics.RegularHasNoJitter` | internal/sipua/rtp.go:352-368 | a stream whose arrivals keep pace with its timestamps has no jitter, whatever wraps and is reordered |
| `RtpStatistics.PaceHasNoJitter` | internal/sipua/rtp.go:254-368 | so the receiver of a sender's packets that are all as long on their way has none |
| `RtpStatistics.JitterConverges` | internal/sipua/rtp.go:352-368 | two runs whose timestamps differ by a constant from some packet on bring their estimates together by 15/16 per accepted packet |
| `RtpStatistics.FractionLostExactly` | internal/sipua/rtp.go:444-453 | the fraction lost is the true share of 256 exactly when the total lost is below 2^24 |
| `RtpStatistics.ReportedLossExactly` | internal/sipua/rtp.go:440-453 | after any run whose loss is not negative the reported loss is the receiver's own, and the reported fraction is its share of 256 if and only if fewer than 2^24 packets are lost |
| `RtpStatistics.LeapsReport` | internal/sipua/rtp.go:440-453 | a run after which a fraction of 0 is reported in place of 255 |
| `RtpStatistics.ReportedJitterIsNearest` | internal/sipua/rtp.go:465-475 | after any run the reported jitter is the estimate to the nearest whole number |
| `RtpStatistics.DelayExactly` | internal/sipua/rtp.go:455-460 | the reported delay is the time since the sender report in units of 1/65536 s if and only if that report came before the clock was read and less than 65536 s ago |
| `RtpStatistics.DelayFarOff` | internal/sipua/rtp.go:427-460 | a report that comes between the reading of the clock and the lock is reported as 2^32-1 units old |
| `RtpStatistics.ReportIsAbout` | internal/sipua/rtp.go:437-475 | after any run a report is about the last source heard and the last sender report that came, with the middle bits of its time and how long ago it came |
| `RtpStatistics.ReportIsUpTo` | internal/sipua/rtp.go:462-475 | and its highest number is that of the packet furthest ahead |
| `Sdp.ParseSDPCodec` | internal/sipua/sdp.go:64-115 | the loops over lines, numbers and offers compute the specified codec and payload type |
| `Sdp.ParseSDPMedia` | internal/sipua/sdp.go:134-159 | the loop over lines computes the specified address, or none as soon as a media line is malformed |
| `Sdp.SdpWantsMedia` | internal/sipua/sdp.go:119-131 | false exactly when some line is a=inactive |
| `Sdp.ParsedIsOffered` | internal/sipua/sdp.go:64-115 | for any body: codec and number are offered together, the preferred codec is taken whenever offered, and nothing is found only when nothing known is offered |
| `Sdp.ParsedIsFirst` | internal/sipua/sdp.go:64-115 | for any body: what is taken is the first entry of the m= line of the preferred codec, or, if none is, the first that offers a known one |
| `Sdp.LastNumbersSeen` | internal/sipua/sdp.go:68-82 | of several media lines that list numbers the last counts |
| `Sdp.LastNameSeen` | internal/sipua/sdp.go:68-82 | and of several rtpmap lines of a number the last |
| `Sdp.NoNameSeen` | internal/sipua/sdp.go:68-82 | and a number without one has no name of its own |
| `Sdp.BadExactly` | internal/sipua/sdp.go:134-159 | a media line without a port makes the body unreadable, and nothing else does |
| `Sdp.LastAddressLocated` | internal/sipua/sdp.go:134-159 | otherwise the last connection line gives the address |
| `Sdp.LastPortLocated` | internal/sipua/sdp.go:134-159 | and the last media line the port |
| `Sdp.AddressExactly` | internal/sipua/sdp.go:134-159 | an address comes of it exactly when there is one and the port is not zero |
| `SdpOffers.TakesFirstPreferred` | internal/sipua/sdp.go:56-115 | of a printed offer of any number of codecs under any different numbers, with or without rtpmap lines for static ones, the first entry of the preferred codec is taken, or else the first of all |
| `SdpAgreement.RoundTrip` | internal/sipua/sdp.go:27-159 | a printed body is parsed back into exactly what was printed, whatever codec is preferred, if and only if the address is at most 65519 characters (beyond that the line scanner gives up) |
| `SdpAgreement.EncodingParts` | internal/sipua/codec.go:101-107 | the rtpmap of each codec is one field whose part before the slash is the codec's name |
| `SdpAgreement.AnswerNamesOneOffer` | internal/sipua/call.go:242-269 | whatever an offer lists, the answer names one codec and number, those the answering end uses, and they are one of the offer's entries if it has a known one |
| `SdpAgreement.EndsAgree` | internal/sipua/call.go:242-269 | offer, parse, answer, parse leaves both ends with one codec and payload type, each other's address and the same direction |
| `SdpAgreement.DialFollowsAnswer` | internal/sipua/call.go:368-373 | when the far side answers the dialled codec under its own number, that number is used |
| `SdpAgreement.DialKeepsItsCodec` | internal/sipua/call.go:368-373 | when it answers another codec, the dialler keeps its own codec and that one's number |
| `SdpAgreement.UnknownGetsDefault` | internal/sipua/call.go:242-269 | an offer that lists nothing known is answered with PCMU under number 0 |
| `Provisioning.CreateExtensionsBatch` | internal/pbxware/v2.go:436-475 | the abstract server: any part of a batch may be applied and the reply lost; a reply lists each requested number once, truthfully |
| `Provisioning.CreateBatchWithRetry` | internal/wizard/wizard.go:455-475 | gives up only when another wait would pass the deadline, and the waits made fit in the time allowed |
| `Provisioning.WaitsAre` | internal/wizard/wizard.go:457-473 | the waits are 2, 4, 8, 16 and then 32 seconds each, with their sums |
| `Provisioning.Settle` | internal/wizard/wizard.go:388-413 | an item is adopted with what the server holds exactly when the number is ours there, and skipped only when it is someone else's; it fails only when a number of ours could not be read or the refusal is not about a taken number |
| `Provisioning.ProvisionExtensions` | internal/wizard/wizard.go:323-447 | on success: the count asked for, increasing, from the first number of the length asked for on and all of that length if there are enough, each with the id and secret the server holds; of all numbers tried exactly ours are returned; never more than 20 skipped, at most count/100 + 21 rounds. A run fails only for a cause outside: such trouble, an oddly named extension, or more than 20 numbers held by others; what its own attempts left behind never makes it fail |
| `Provisioning.BaseIsFirst` | internal/wizard/wizard.go:326-330 | numbering starts at the first number with the given count of digits |
| `Provisioning.LeftoverIsAdopted` | internal/wizard/wizard.go:396-409 | every refusal of a taken number reads as one, and that of a number an earlier attempt created is recognised as our own |
| `Provisioning.NothingOrphaned` | internal/wizard/wizard.go:326-453 | every extension created during a successful run is returned with its stored secret, even if the reply that reported it was lost |
| `Provisioning.SkippedAreForeign` | internal/wizard/wizard.go:410-418 | every number tried and not returned is someone else's on the server |
| `Provisioning.UsernamesAreRight` | internal/wizard/wizard.go:419-429 | if the server forms usernames by one prefix, all usernames returned are the server's |
| `Provisioning.OwnExactly` | internal/wizard/wizard.go:477-481 | an extension made as m is taken for our own at number n if and only if the digits of n begin those of m |
| `Provisioning.OwnAmongEqualLengths` | internal/wizard/wizard.go:477-481 | so among numbers of one length the test is exact |
| `Provisioning.OwnAcrossLengths` | internal/wizard/wizard.go:477-481 | a concrete number for which it is not |
| `SessionCache.InvStep` | cmd/gui/handlers.go:404-508 | every critical section, wait, creation and close of any handler keeps the invariant |
| `SessionCache.OneCreator` | cmd/gui/handlers.go:478-501 | at most one creation per key at a time, and a key is pending exactly while one runs |
| `SessionCache.ClosedExactlyOnce` | cmd/gui/handlers.go:487-506 | a pending channel is closed once, exactly when its creator has returned |
| `SessionCache.NothingOverwritten` | cmd/gui/handlers.go:498-505 | a finished creation never replaces a cached session |
| `SessionCache.OneSession` | cmd/gui/handlers.go:404-508 | unless its session is dropped, all handlers of a key get the same one |
| `SessionCache.WaiterGoesOn` | cmd/gui/handlers.go:482-486 | no waiter is left on a channel nobody will close: at most three steps of its creator, always possible, wake it; it then looks again and gets the session created, or, if the creation failed, makes one itself |
| `SessionCache.FailsExactly` | cmd/gui/handlers.go:404-508 | a dial that is over failed if and only if it was refused or its own creation failed |
| `SessionCache.GotWasCreated` | cmd/gui/handlers.go:404-508 | every session a dial gets was created by a dial of the same key |
| `SessionCache.PortsDisjoint` | cmd/gui/handlers.go:537-543 | all port ranges handed out in a run are disjoint |
| `SessionCache.PortsInSteps` | cmd/gui/handlers.go:537-543 | the first starts at port 20000 and each one ten ports after the end of the one before |
| `SessionCache.App.LookUpLocked` | cmd/gui/handlers.go:406-489 | the first critical section does what the transition system says: ranges are taken before the pending check |
| `SessionCache.App.PublishLocked` | cmd/gui/handlers.go:499-505 | so does the second |
| `SessionCache.App.DropServer` | cmd/gui/handlers.go:299-307 | exactly the sessions that involve the server are dropped, pending creations untouched |
| `TrunkCodec.BuildTrunkCodecOrder` | internal/pbxware/v2.go:531-542 | the loop computes the specified order |
| `TrunkCodec.OrderIsPermutation` | internal/pbxware/v2.go:531-542 | for an allowed codec the order is the codec list rearranged with that codec first |
| `TrunkCodec.App.PrepareRemoteBatch` | cmd/gui/trunkcodec.go:47-104 | the method does what the specification says for every way its requests can turn out |
| `TrunkCodec.App.ReleaseBatch` | cmd/gui/trunkcodec.go:96-103 | the closure decrements once |
| `TrunkCodec.ReleaseIsIdempotent` | cmd/gui/trunkcodec.go:96-103 | releasing twice is releasing once |
| `TrunkCodec.InvPrepare` | cmd/gui/trunkcodec.go:47-104 | running stays the number of batches not released, all of the pair's codec, also on every error path |
| `TrunkCodec.InvRelease` | cmd/gui/trunkcodec.go:96-103 | and so does a release |
| `TrunkCodec.GrantedHolds` | cmd/gui/trunkcodec.go:66-94 | after a granted preparation both trunks are in the batch's order, whoever changed them before |
| `TrunkCodec.GrantedExactly` | cmd/gui/trunkcodec.go:47-94 | when its requests go well a batch is granted if and only if its codec is known and every batch of its pair not yet released is of that codec |
| `TrunkCodec.RefusalChangesNothing` | cmd/gui/trunkcodec.go:53-64 | a batch not granted changes no count, and a refused one no trunk either |
| `TrunkCodec.FirstFailureStops` | cmd/gui/trunkcodec.go:66-84 | when the first server's trunk cannot be read or set the second server's is left alone |
| `TrunkCodec.NothingToSet` | cmd/gui/trunkcodec.go:66-84 | a batch whose trunks are in its order is granted without setting them |
| `TrunkCodec.KeptExactly` | cmd/gui/trunkcodec.go:53-84 | a preparation on another pair leaves a running pair's trunk order alone, however it turns out, exactly when it is refused, of the same codec, or shares no trunk; the opposite direction of the same servers is such another pair |
| `TrunkCodec.OppositeReorders` | cmd/gui/trunkcodec.go:53-84 | for any two servers with trunks: a batch one way in ulaw and then one the other way in opus are both granted, and the first one's trunks are no longer in its order |
| `RemoteDial.InvStep` | cmd/gui/handlers.go:365-397 | trunk preparation, session and release keep the joint invariant at every step |
| `RemoteDial.TrunksSuitEveryCall` | cmd/gui/handlers.go:365-397 | as long as a remote call has not ended, its pair is held and both trunks are in its codec's order |
| `RemoteDial.AllLetGo` | cmd/gui/handlers.go:388-394 | every batch is released: with the session quiet and the handlers done the pair runs nothing and takes any allowed codec |
| `RemoteDial.NeverHeldForNothing` | cmd/gui/handlers.go:388-394 | a held pair with a quiet session has a handler that can go on |
| `RemoteDial.Drains` | cmd/gui/handlers.go:365-397 | from every reachable state finishing steps alone, however many calls the handlers were asked for, bring the session to rest and the pair to no running batch |
| `Registration.RegistrationHandle.Update` | cmd/gui/registration.go:66-79 | a report is shown unless its sum is below the one shown |
| `Registration.ShownOnlyGrows` | cmd/gui/registration.go:64-79 | over any interleaving of counting, reading and reporting the shown sum never falls and never exceeds the number of phones |
| `Registration.FinalCountsShown` | internal/orchestrator/session.go:122-157 | when all goroutines are done exactly the final counts are shown, and the phones missing from them are the cancelled ones |
| `Registration.ShownAreAttempts` | internal/orchestrator/session.go:122-157 | and these are how many attempts of the run succeeded and how many failed |
| `Registration.ReportHeldExactly` | internal/orchestrator/session.go:127-131 | over any run, the two counts a goroutine is about to report have held together if and only if the failed count got to the one read before the registered count went beyond the one read |
| `Registration.MixedReport` | internal/orchestrator/session.go:127-131 | a run that shows one registered and one failed, though these counts held together at none of its steps |
| `Saturation.SaturatesByLength` | internal/testrun/runner.go:482-493 | a run length of three is the same as the last three observations all being over |
| `Saturation.HostThresholds` | internal/testrun/runner.go:482-500 | the host saturates at 95 per cent of CPU or memory in the last three samples, the dialling machine at 80 |
| `Saturation.ServerThresholds` | internal/testrun/runner.go:501-514 | a server at 95 per cent of its limit in its last three readings, if it has a limit |
| `Saturation.TestState.Take` | internal/testrun/runner.go:403-517 | under load a sample ends the test exactly when some metric's last three observations were over its threshold, and names the first such in checking order; idle samples are only recorded |
| `Saturation.FailedReadings` | internal/testrun/runner.go:412-419 | a failed host reading ends the host's runs, a failed reading of the servers leaves theirs alone |
| `Saturation.DegradedIsFirst` | internal/testrun/runner.go:462-480 | the quality mark is the first load sample that meets the condition and never moves |
| `Saturation.DegradesWhen` | internal/testrun/runner.go:462-480 | quality is down when more than one in a hundred of the calls since the last sample failed, or setup takes more than 500 ms |
| `Saturation.RunRamp` | internal/testrun/runner.go:666-713 | the ramp ends at the first turn, and for the reason, that the history of samples and the clock say |
| `Saturation.ReachedMeansHeld` | internal/testrun/runner.go:696-706 | a target reported reached was there at the end, and longer than the hold had passed since a turn that had it |
| `Saturation.JudgedExactly` | internal/testrun/runner.go:696-713 | a turn ends the ramp if and only if the hold time is over or every call was dialled and none is running, and the target counts as reached if and only if the hold time is over and the calls are there |
| `Saturation.RunRolling` | internal/testrun/runner.go:720-762 | a rolling test ends early exactly at the first saturating sample, and otherwise judges the peak within one per cent |
| `Saturation.PeakIsMost` | internal/testrun/runner.go:440-442 | the peak it judges is the most calls running at any sample |
| `Saturation.TestState.AtStop` | internal/testrun/diagnostics.go:257-267 | the sample reported at the stop is the last one under load |
| `Diagnostics.FailureKeySplits` | internal/orchestrator/health.go:54-67 | cause and code are recovered from their key exactly when the cause does not itself read like a rejection |
| `Diagnostics.LossIsAPercentage` | internal/orchestrator/health.go:42-51 | between any two readings no difference underflows and the loss is the share of what was expected in per cent, in 0 to 100 |
| `Diagnostics.MediaTotals.Add` | internal/orchestrator/health.go:42-51 | the totals after a call, its received packets capped by the expected ones |
| `Diagnostics.TotalsAddUp` | internal/orchestrator/health.go:34-51 | over any calls the totals grow by their sums, packets counted up to what was expected, and the highest jitter is the highest of all |
| `Diagnostics.Diag.Sample` | internal/testrun/diagnostics.go:213-244 | over a growing history each cause has the mark of the first reading above the start, which stays, and one event with it, and each loss of registrations has one, unless the list of events is full; after the stop nothing is marked |
| `Diagnostics.MarkIsFirst` | internal/testrun/diagnostics.go:219-240 | the mark is that of the first reading above the start |
| `Diagnostics.Diag.Failures` | internal/testrun/diagnostics.go:292-318 | the report lists, once each, exactly the causes that occurred, with their counts and marks |
| `Diagnostics.ReportedCounts` | internal/testrun/diagnostics.go:292-318 | each count is the growth of the total it is named for, before and after the stop |
| `Diagnostics.AfterStopFits` | internal/testrun/diagnostics.go:298-317 | 0 <= AfterStop <= Count, a mark implies Count > AfterStop, and there is a mark exactly when the last reading before the stop was above the start |
| `Cdr.RecordingCDRsSince` | internal/pbxware/cdr.go:313-376 | the page and row loops compute the specified early-stopping read, with its errors |
| `Cdr.PanicsExactly` | internal/pbxware/cdr.go:348-372 | the read is cut short by an index out of range if and only if it gets to a page with a row that has a cell for the availability but none for the date, or is new enough and has none for the id or the duration |
| `Cdr.FailsExactly` | internal/pbxware/cdr.go:325-347 | it fails exactly when it gets to a page that does not come, and complains of columns exactly when it gets to one with rows whose header lacks one |
| `Cdr.RowRead` | internal/pbxware/cdr.go:341-372 | a row with all its cells gives the record of just these cells, whatever is in them |
| `Cdr.StatusRead` | internal/pbxware/cdr.go:341-372 | and of its status cell, where the header has one and the row goes so far |
| `Cdr.ColumnIsLast` | internal/pbxware/cdr.go:333-340 | a column is the last header cell of its name |
| `Cdr.IntOfNumber` | internal/pbxware/cdr.go:355-361 | a number in a cell is read as itself, cut off at 64 bits |
| `Cdr.IntOfSigned` | internal/pbxware/cdr.go:355-361 | with a sign as well |
| `Cdr.IntOfText` | internal/pbxware/cdr.go:355-361 | and anything else as zero |
| `Cdr.KeptAre` | internal/pbxware/cdr.go:355-359 | what is kept is every record new enough, once each and in order |
| `Cdr.StopsAfter` | internal/pbxware/cdr.go:327-376 | a page that fails to come, is empty, is the last or has an old call is the last that matters |
| `Cdr.ShortRow` | internal/pbxware/cdr.go:348-372 | the same short row breaks the read when new and is passed over when old |
| `Cdr.EarlyStopIsFilter` | internal/pbxware/cdr.go:313-376 | for complete pages, newest first, of any number and size, it equals filtering all records by start time |
| `Cdr.EarlyStopExactly` | internal/pbxware/cdr.go:313-376 | for any readable pages it loses nothing if and only if no record that is new enough comes on a page after one that ends the reading |
| `Cdr.BadDateStops` | internal/pbxware/cdr.go:348-372 | a row whose date is no number makes its page the last that is read: whatever follows does not change the answer |
| `Cdr.BadDateLoses` | internal/pbxware/cdr.go:348-372 | pages of which a new call is lost that way |
| `Cdr.FindUniqueIDs` | internal/pbxware/cdr.go:104-141 | through the index each call gets the id a scan over all entries would find, and none exactly when that finds none |
| `Cdr.IndexIsScan` | internal/pbxware/cdr.go:110-113 | looking only among the extension's own entries finds the same entry |
| `Cdr.BestIsNearest` | internal/pbxware/cdr.go:118-137 | there is a match exactly when an entry of the extension lies within tolerance, and it is the first of those nearest to the start |
| `Cdr.BestIsClosest` | internal/pbxware/cdr.go:118-137 | in plain terms: within fifteen seconds of the call, the closest to its start, the first of those |
| `Did.DidFor10DigitRoute` | internal/wizard/connect.go:196-202 | the padding loop computes the specified number |
| `Did.DidFitsRoute` | internal/wizard/connect.go:178-202 | every DID has ten digits and matches the default route |
| `Did.DidHolds` | internal/wizard/connect.go:196-202 | around its fixed fives a DID has the code's three digits, or zeros, and the extension's four |
| `Did.DidsEqualExactly` | internal/wizard/connect.go:196-202 | two extensions share a DID exactly when number and code are the same, no code counting as 000 |
| `Did.AddDIDsFor` | internal/wizard/connect.go:161-176 | on success each extension has its DID, in order |
| `Did.DidLookup` | cmd/gui/handlers.go:597-603 | the table maps each extension to its last DID |
| `Did.DialledNumberRoutesBack` | internal/orchestrator/session.go:380-385 | the number dialled for a callee fits the route and leads back to that callee and no other of its server; to none of the other server exactly when the codes differ or the number does not exist there |

## Left out

- SIP transactions, sockets, RTP pacing, tickers and real time: a dial is a free choice between answered and failed, a
  delay a step that may happen at any moment, a deadline a comparison with an abstract clock.
- The order in which `AddCallsWithCallee` starts its goroutines, and counting a call as started apart from starting it:
  one step starts any call of the batch and counts it.
- The session's event log and the order of its events: sequence numbers are taken outside the lock, so no order is
  promised.
- The session's snapshot: a call's packets are added to the ended totals before it leaves the list, so the totals of a
  snapshot are not exact while calls end.
- Media totals in the transition system: what a call adds to them is in `Diagnostics` alone.
- `Session.Close`, refreshing of registrations and the older one-shot `orchestrator.Run`.
- The sender report itself. A negative delay in a receiver report is converted as amd64 does it, by way of a wider
  integer; Go leaves that conversion open. Delays and the jitter are exact, not floating-point, numbers.
- Wrap-around of the 64-bit packet and octet counters of a stream.
- Text outside ASCII, and an unknown codec string, which the program treats as the default codec.
- Encoding of audio, speech synthesis and the sound itself.
- HTTP, JSON and the other requests of the PBXware clients: an abstract server stands for them. The two maps of local and
  remote sessions are one map whose keys say which kind they are.
- The fixed fields of a created extension (names, limits, codecs, PIN), and the progress it reports.
- The wait for PBXware to reload a trunk's codecs, and other users of the same trunks than remote batches.
- Saturation.RunRolling: does not model the rates, the steps and the ten-second chunks in which calls are added; a
  rolling test is the samples that fall due.
- That a ramp ends: calls cancelled while ramping never count as dialled, so the loop may go on; `RunRamp` covers any number
  of turns and says so when it has not ended.
- Events and figures of a test besides failure causes, lost registrations, saturation and quality: nearing thresholds, RAM
  disk estimates, MP3 delays, averages, and the order of the failure list by size.
- Fetching the days of records that may hold a call, and looking up its MOS values once its record is found.
- The server's own use of a DID, and the trunk and default routes it is created with.
- Login, TLS, the stores and logs on disk, reports and everything shown in a browser.
