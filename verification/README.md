# Lyte client policies, modelled and proved in Dafny

Lyte is a remote-desktop client whose decisions live in small state machines that are fed
an injected clock and return actions. This project models the hardest of them and proves
what they promise over every input and every run. Each part has the same shape: a value
state and specification steps, lemmas about whole runs of those steps, and a class in the
source's own mutable form whose methods are proved to take exactly those steps.

- **Video decode backlog** (`RendererHandoff`, `ClientIdrRecovery`, `BrowserVideoPlayout`,
  `BrowserVideoRuns`, `BrowserDecodeSteps`, `BrowserDecodeClosure`, `BrowserPresentationSteps`,
  `BrowserPresentation`, `BrowserAbandonSteps`, `BrowserAbandonRing`, `BrowserAdmissionSteps`,
  `BrowserAdmission`, `BrowserPopAnswers`, `BrowserVideoPlayer`): a bounded backlog with
  evictions, a recovery gate and a presentation queue. No frame whose reference chain is broken
  is ever handed to the decoder, every promised frame is accounted for, and every keyframe ends
  the recovery it answers.
- **Audio playout** (`AudioTarget`, `AudioTargetAnswers`, `AudioJitterBuffer`,
  `AudioPlayoutSteps`, `AudioPlayout`, `AudioPrePlayout`, `AudioVerdictSteps`, `AudioVerdicts`,
  `AudioCushion`, `AudioJitterPlayer`, `AudioAccelerator`, `AudioRingProtocol`,
  `AudioPcmRing`): reordering with rewinds, concealment and re-centring, an adaptive target, a
  token-bucketed time compressor, and a single-producer single-consumer ring whose loads, copies
  and publishes interleave.
- **Roaming and dialing** (`RoamingPolicy`, `RoamingSteps`, `RoamingRuns`, `RoamingAnswers`,
  `RoamingDeadlines`, `RoamingTargetSteps`, `RoamingTargets`, `RoamingDialer`, `ConnectionModel`,
  `OwnershipSteps`, `SessionOwnership`, `WindowVerdictSteps`, `WindowVerdicts`,
  `ConnectionDriver`): the dial policy, and the window that runs it with asynchronous dials,
  scans and events fenced by generations and epochs.
- **Indexes that must agree with a simple thing** (`SeqGapTracker`, `SeqGapBitmap`,
  `LinkHealthMeter`, `LinkHealthWindow`, `LinkHealthVerdicts`, `LinkHealthBooks`,
  `ClientNackPolicy`, `NackRuns`, `NackBookLife`, `NackCounters`, `NackBooks`): a wrapping
  bitmap against the positions seen, reused buckets against an episode log and the failed
  frames behind it, and a walk over the books against a walk over the range.
- **Input** (`InputForwarding`, `InputReplay`, `InputExact`, `InputAnswers`, `InputForwarder`,
  `BrowserInputQueue`): emitted edges replayed on an abstract host.
- **Clocks, feedback and the marker** (`ClientBeaconEcho`, `ClientHostClock`, `ClockBounds`,
  `ClockExchange`, `ClockOrder`, `ClockAnswers`, `HostClockModel`, `ClientFeedbackReporter`,
  `FeedbackRuns`, `FeedbackAnswers`, `FeedbackShell`, `SyntheticMotion`, `SyntheticCanvas`):
  error bounds, the best fitting line, a real-time bound, a round trip.
- **Shared** (`Wrappers`, `IntSets`, `Positions`, `SerialArithmetic`, `LeastSquares`,
  `LeastSquaresBest`).

Beside the theorems over runs, each operation's answer is proved in the fields a caller can
read: what a beat sends, what a pull answers, what an event makes of the window, which frames a
pop passes over, which line a fit takes.

Sequence numbers and times are unbounded integers; `SerialArithmetic` says when the source's
wrapped comparisons agree, `AudioPrePlayout` that they do along the jitter buffer's runs, and
the gap tracker, the repair policy and the echo book keep the source's wrap-around itself.
Doubles are exact reals.

## Where the code and its comments differ

The model follows the code. For each difference a lemma gives an input that shows it, and
another says for all inputs when the claim does hold.

- The roaming tick is called idempotent at one instant. A beat that dials postpones a due scan
  to the next call (`TickIsNotIdempotent`); that is the only exception (`SecondTickActsIff`),
  and two ticks always settle (`TwoTicksSettle`).
- After the establishment budget nothing is said to be dialed or scanned ever again. A reconnect
  by hand scans and dials (`BuriedDialsAgain`); the claim holds exactly until the driver reports
  a session, a closure or a reconnect (`BuriedStaysQuietIff`).
- Before playout every pending pair of audio packets is said to lie within the hard cap. A pair
  may not (`PairsMayExceedTheCap`); all do exactly while each newcomer lands within the cap of
  the oldest and newest it is kept beside, or re-primes (`JoinKeepsPairsIff`, `PairsHoldIff`).
- The declick is said to keep the output continuous. It can step at both seams of a call
  (`TrickleStepsToSilence`); it does not exactly when no call is served in part right after a
  starved one (`SeamlessIffNotTrickling`, `RunSeamlessIff`).
- The stream hold is exact when connects start from an idle window (`HoldIsExactFromIdle`); from
  a merely non-streaming one it can be lost (`ConnectingTwiceLeaks`), and one turn loses it
  exactly when it is a named leak (`HoldBreaksExactlyOnLeaks`).
- While scanning is wanted, or a session is gone, something is said to be out or due. For the
  policy that holds (`NeverDark`), given that its dial is answered. The window answers it when
  connects start from an idle window (`NoDialIsStranded`); a connect over a living policy may
  strand the dial (`ConnectingTwiceStrands`), and that policy then has no deadline
  (`ConnectWaitsOnItsDial`).
- Each shard is said to be asked once, ever. It can be asked twice (`ShardAskedTwice`); it is
  asked once in the life of its frame's book (`EachShardAskedOnce`), and over a run exactly while
  no later input meets the asking rules for it again (`AskedOnceIff`, `AsksShardIff`).
- The host's Ctrl is said to be down for a chord exactly while chord keys are held. When a press
  makes left Ctrl a chord's and held at once (`SharedIff`), a later event can take it from one of
  its two holders (`SharedCtrlIsLost`). The host holds exactly what the client does until such an
  event, or until a press or a lock change taps Caps Lock while Caps Lock is itself held as a
  key (`ExactIffNotBreaking`, `ExactThroughoutIff`).

## Model

| member | source | states |
|---|---|---|
| BrowserDecodeClosure.DecodeClosure | Browser/Sources/LyteClientBrowserCore/BrowserVideoPlayout.swift:322-418 | In every run, with any evictions, skips, handoff discards and recovery episodes, each inter frame the page takes (other than the run's first frame) has its assembled predecessor taken before it; each frame is taken once and with its own bytes. |
| BrowserDecodeClosure.DecodeConservation | Browser/Sources/LyteClientBrowserCore/BrowserVideoPlayout.swift:189-193 | Every assembled frame is handed out, waiting, evicted, undecodable or dropped by the page: the counts add up after every run, and the backlog and its log keep their bounds. |
| BrowserDecodeClosure.DropDependentsCut | Browser/Sources/LyteClientBrowserCore/BrowserVideoPlayout.swift:344-353 | What dropping dependents removes is exactly the queued frames up to the next live keyframe, and nothing after it. |
| BrowserDecodeClosure.EvictPastBoundSheds | Browser/Sources/LyteClientBrowserCore/BrowserVideoPlayout.swift:326-336 | Evicting past the bound keeps every queued inter frame's predecessor queued or already handed out, and opens recovery. |
| BrowserDecodeClosure.StoreKeeps | Browser/Sources/LyteClientBrowserCore/BrowserVideoPlayout.swift:322-342 | Storing an admitted unit keeps the chain, the order and the bound of the backlog. |
| BrowserDecodeClosure.RunKeepsInv | Browser/Sources/LyteClientBrowserCore/BrowserVideoPlayout.swift:113-174 | The decode invariant holds after every event of every run. |
| BrowserAdmission.RecoveryIsDamage | Browser/Sources/LyteClientBrowserCore/BrowserVideoPlayout.swift:322-418 | In every run the recovery open at any moment is the newest damage since the last assembled keyframe, read off the events: a skip, a frame refused by the handoff or flushed, an expiry, an eviction. |
| BrowserAdmission.KeyframeAnswers | Browser/Sources/LyteClientBrowserCore/BrowserVideoPlayout.swift:355-418 | In every run a keyframe is stored with its own bytes, ends the recovery, is kept for its beat, and is promised exactly when it is not late. |
| BrowserAdmission.DamageTurnsAway | Browser/Sources/LyteClientBrowserCore/BrowserVideoPlayout.swift:379-388 | In every run, while damage stands, an inter frame is only counted undecodable. |
| BrowserAdmission.InterAnswers | Browser/Sources/LyteClientBrowserCore/BrowserVideoPlayout.swift:355-418 | In every run, with no damage since the last keyframe, an inter frame is stored exactly unless the backlog is full of frames that all lean on its oldest, and promised exactly when it is not late and the handoff takes it: not flushed, not waiting, not overwhelmed. |
| BrowserAdmissionSteps.StepDamages | Browser/Sources/LyteClientBrowserCore/BrowserVideoPlayout.swift:297-418 | What damage one event does, from the state before it. |
| BrowserPresentation.PresentationAccounting | Browser/Sources/LyteClientBrowserCore/BrowserVideoPlayout.swift:195-252 | Each frame promised for presentation is at any moment in exactly one place: held by the handoff, held early, popped as due, reported abandoned or waiting to be, dropped by the page, or overwritten in a full ring. |
| BrowserAbandonRing.NothingLostIff | Browser/Sources/LyteClientBrowserCore/BrowserVideoPlayout.swift:297-320 | In every run the abandoned ring overwrote nothing if and only if the page left it room for each event's discards, counted before the event. |
| BrowserAbandonRing.StepDiscards | Browser/Sources/LyteClientBrowserCore/BrowserVideoPlayout.swift:297-320 | How many promises an event abandons, from the state before it: all that wait on a flush, the queued ones when the handoff gives its queue up, else none. |
| BrowserAbandonRing.DrainedAccounting | Browser/Sources/LyteClientBrowserCore/BrowserVideoPlayout.swift:195-252 | Over a run whose page drains in time each promised frame is in exactly one place: held by the handoff, held early, waiting to be reported, or settled once as popped, reported or dropped; none is overwritten. |
| BrowserAbandonRing.ShortListsAreInTime | Browser/Sources/LyteClientBrowserCore/BrowserVideoPlayout.swift:195-200 | A page that never leaves more than 106 frames undrained drains in time, whatever happens between. |
| BrowserPresentation.ScheduleKeeps | Browser/Sources/LyteClientBrowserCore/BrowserVideoPlayout.swift:355-418 | Scheduling adds a promise exactly when the returned frame says it should be presented, and discards settle the promises they end. |
| BrowserPresentation.PopDueKeeps | Browser/Sources/LyteClientBrowserCore/BrowserVideoPlayout.swift:205-230 | A pop takes one promised frame out, and only once its beat is due. |
| BrowserPopAnswers.PopAnswers | Browser/Sources/LyteClientBrowserCore/BrowserVideoPlayout.swift:205-230 | Whatever the player holds, a pop hands out the early frame once due, or passes over the queued frames that promise nothing and stops at the first that does: handed out when due, held early when not; and every field it leaves. |
| RendererHandoff.OfferConserves | Common/Sources/LyteCore/RendererHandoffPolicy.swift:55-102 | An offer loses and invents nothing: discards followed by what is kept are what was queued followed by the newcomer. |
| RendererHandoff.OfferKeeps | Common/Sources/LyteCore/RendererHandoffPolicy.swift:55-102 | A refusal empties the queue; an accepted newcomer is its tail; capacity and the await state stay consistent. |
| ClientIdrRecovery.RunKeepsInv | Client/Sources/LyteClientSession/ClientIdrRecovery.swift:48-101 | Over any run the requests of one episode are a retry interval apart, number on, name the newest damage and count the demands they answer. |
| ClientIdrRecovery.AskIsAnswered | Client/Sources/LyteClientSession/ClientIdrRecovery.swift:48-101 | In every run an ask sends exactly when demands stand since the last accepted frame and none was sent for them within the interval; it names the newest demand and counts them all, up to 255. |
| ClientIdrRecovery.ClientIdrRecovery.RecordDemand | Client/Sources/LyteClientSession/ClientIdrRecovery.swift:50-64 | Opens an episode or joins the open one, in place. |
| ClientIdrRecovery.ClientIdrRecovery.RequestDue | Client/Sources/LyteClientSession/ClientIdrRecovery.swift:74-92 | The first request at once, retries only after the interval, with the newest damage and a saturated count. |
| ClientIdrRecovery.ClientIdrRecovery.NoteUsableIrapAccepted | Client/Sources/LyteClientSession/ClientIdrRecovery.swift:96-101 | Closes an open episode and counts it. |
| BrowserVideoPlayer.BrowserVideoPlayer.Store | Browser/Sources/LyteClientBrowserCore/BrowserVideoPlayout.swift:322-342 | The backlog loop in place: append, evict past the bound, compact. |
| BrowserVideoPlayer.BrowserVideoPlayer.DropLaterDependents | Browser/Sources/LyteClientBrowserCore/BrowserVideoPlayout.swift:346-353 | The dependents loop in place, against its recursive specification. |
| BrowserVideoPlayer.BrowserVideoPlayer.ScheduleUnit | Browser/Sources/LyteClientBrowserCore/BrowserVideoPlayout.swift:355-418 | Admission, flush, recovery and offer in the source's order. |
| BrowserVideoPlayer.BrowserVideoPlayer.AbsorbOutcome | Browser/Sources/LyteClientBrowserCore/BrowserVideoPlayout.swift:297-315 | The discard loop and the one recovery demand. |
| BrowserVideoPlayer.BrowserVideoPlayer.EvictStale | Browser/Sources/LyteClientBrowserCore/BrowserVideoPlayout.swift:168-172 | The beat's expiry of the handoff, absorbed: its discards leave every book, and it may open a recovery. |
| BrowserVideoPlayer.BrowserVideoPlayer.Pop | Browser/Sources/LyteClientBrowserCore/BrowserVideoPlayout.swift:205-230 | The pop loop, early frame included. |
| BrowserVideoPlayer.BrowserVideoPlayer.PageDropped | Browser/Sources/LyteClientBrowserCore/BrowserVideoPlayout.swift:246-252 | The page's drop reaches every place the frame may be. |
| BrowserVideoPlayer.BrowserVideoPlayer.TakeBytes | Browser/Sources/LyteClientBrowserCore/BrowserVideoPlayout.swift:191-193 | Hands out a frame's bytes once. |
| BrowserVideoPlayer.BrowserVideoPlayer.DrainAbandoned | Browser/Sources/LyteClientBrowserCore/BrowserVideoPlayout.swift:197-200 | Reports and clears the abandoned frames. |
| AudioPlayout.MonotonePlayout | Client/Sources/LyteClientCore/AudioJitterBuffer.swift:239-419 | Over any interleaving of inserts, pulls and quiets, played packet numbers strictly increase although the playout point may step back. |
| AudioPlayout.PlayoutBounds | Client/Sources/LyteClientCore/AudioJitterBuffer.swift:276-449 | Insertions are conserved (played, pending, late, duplicate, dropped); once started pending numbers are at or past the playout point and within the hard cap; before, sorted neighbours are within it, and so the span is bounded. |
| AudioPlayout.OvergrownRecenters | Client/Sources/LyteClientCore/AudioJitterBuffer.swift:430-437 | When the buffer overgrows, the re-centre's second guard always passes (pigeonhole). |
| AudioPlayout.LinkedSpan | Client/Sources/LyteClientCore/AudioJitterBuffer.swift:280-290 | Numbers whose sorted neighbours lie within the cap span at most a cap for each neighbour. |
| AudioPlayout.PairsMayExceedTheCap | Client/Sources/LyteClientCore/AudioJitterBuffer.swift:280-290 | The comment's stronger claim is false: a run whose pending pair is farther apart than the hard cap. |
| AudioPrePlayout.JoinKeepsPairsIff | Client/Sources/LyteClientCore/AudioJitterBuffer.swift:276-306 | Exactly when a newcomer keeps every pair pending before playout within the hard cap: it re-primes, or it is within the cap of the oldest and the newest of those it will be kept beside (all while there is room, all but the oldest when full). |
| AudioPrePlayout.PairsHoldIff | Client/Sources/LyteClientCore/AudioJitterBuffer.swift:239-307 | Over every run the claim holds at every point before playout if and only if no insert lands farther than that. |
| AudioPrePlayout.RunStaysInWindow | Client/Sources/LyteClientCore/AudioJitterBuffer.swift:239-449 | Over every run pending, next, last-played, the rewind floor and the burst end stay within the window of the numbers inserted, plus the concealment and burst margins. |
| AudioPrePlayout.RunComparesTrue | Client/Sources/LyteClientCore/AudioJitterBuffer.swift:421-449 | So in every run whose numbers fall inside a window that far short of half the u32 space, any two numbers the buffer compares compare, wrapped, as the unbounded ones do. |
| AudioVerdicts.PullAnswers | Client/Sources/LyteClientCore/AudioJitterBuffer.swift:314-419 | In every run, over a started buffer's fields: a pull conceals if and only if urgent, the next packet is missing, budget is left, and what is pending is near (or nothing is, and no quiet was announced); it plays the next packet when pending, the oldest exactly past the jump or past an urgent spent budget, and else waits. What it leaves of every field. |
| AudioVerdicts.FirstPullAnswers | Client/Sources/LyteClientCore/AudioJitterBuffer.swift:314-326 | Before playout a pull waits for the target and then plays the oldest. |
| AudioVerdicts.DropAnswers | Client/Sources/LyteClientCore/AudioJitterBuffer.swift:239-279 | In every run exactly which inserts are late and which duplicates, and all they change: the counts, a quiet's end, and a target deepened by as far as a packet came narrowly late. |
| AudioVerdicts.JoinAnswers | Client/Sources/LyteClientCore/AudioJitterBuffer.swift:239-308 | In playout any other packet joins: playout steps back to it on a slot still open, and skips to the target's worth that ends at the newest when the buffer overgrew. |
| AudioVerdicts.PrimeAnswers | Client/Sources/LyteClientCore/AudioJitterBuffer.swift:280-306 | Before playout any other packet joins, or starts over when far off, and just the newest target's worth stays. |
| AudioVerdicts.QuietAnswers | Client/Sources/LyteClientCore/AudioJitterBuffer.swift:220-223 | An announced quiet is marked and starts the adaptation's windows over. |
| AudioVerdicts.MarksRemember | Client/Sources/LyteClientCore/AudioJitterBuffer.swift:220-419 | In every run the buffer takes the stream for quiet just from an announcement to the next wire-carried packet ahead of the last played, and counts against its budget just the concealments since a packet played or playout skipped. |
| AudioPlayout.RunKeeps | Client/Sources/LyteClientCore/AudioJitterBuffer.swift:239-449 | The buffer invariant holds after every event of every run. |
| AudioTarget.RetargetCovers | Client/Sources/LyteClientCore/AudioJitterBuffer.swift:523-590 | Every retarget leaves the target covering the window: short of the ceiling, any two samples' detrended skews differ by at most one packet less than it. |
| AudioTarget.DriftAsksForTheFloor | Client/Sources/LyteClientCore/AudioJitterBuffer.swift:528-572 | A window on one drift line inside the skew clamp asks for the floor: drift is not jitter. |
| AudioCushion.CushionFallsSlowly | Client/Sources/LyteClientCore/AudioJitterBuffer.swift:454-590 | From any point of any run at which the cushion is earned, it loses its first packet only after a whole hold of arrivals, and each packet takes a whole step of arrivals more; rises and lateness only slow it. |
| AudioTarget.NoteArrivalIsSound | Client/Sources/LyteClientCore/AudioJitterBuffer.swift:454-515 | The target keeps its bounds and the sample window its size and cursor; before playout an arrival never moves the target. |
| AudioTargetAnswers.DriftIsBest | Client/Sources/LyteClientCore/AudioJitterBuffer.swift:528-550 | Under 128 samples no drift is fitted; from there on no line within the clamp misses the samples by less, squared and summed, than the one fitted. |
| AudioTargetAnswers.DesiredIsLeast | Client/Sources/LyteClientCore/AudioJitterBuffer.swift:551-572 | The depth wanted is the least within its bounds at which no two samples' skews, the drift taken out, differ by more than all but one of the packets last; the ceiling when there is none. |
| AudioTargetAnswers.RetargetAnswers | Client/Sources/LyteClientCore/AudioJitterBuffer.swift:573-590 | A retarget rises at once to what is wanted, falls at once from what the path never earned, and sheds an earned cushion a packet at a time against both proofs. |
| AudioTargetAnswers.RecordAnswers | Client/Sources/LyteClientCore/AudioJitterBuffer.swift:454-515 | What each arrival leaves of the window and its anchor: the least skew moves to the anchor as the cursor wraps, and what a sample and the anchor make together stays. |
| AudioTargetAnswers.ArrivalAnswers | Client/Sources/LyteClientCore/AudioJitterBuffer.swift:454-523 | Which arrivals say something of the path, what they count, and which of them retarget. |
| AudioTarget.Extremes | Client/Sources/LyteClientCore/AudioJitterBuffer.swift:554-562 | One pass finds the least and greatest residual. |
| AudioTarget.DesiredPackets | Client/Sources/LyteClientCore/AudioJitterBuffer.swift:528-572 | The controller's arithmetic from window to clamped target. |
| AudioTarget.NoteFresh | Client/Sources/LyteClientCore/AudioJitterBuffer.swift:454-515 | One arrival through the controller as the player runs it: the sample loop, the re-anchoring loop and the cadence. |
| AudioTarget.Steer | Client/Sources/LyteClientCore/AudioJitterBuffer.swift:523-590 | The retarget over its loops, with its rise, release and shedding branches. |
| LeastSquares.LineIsRecovered | Client/Sources/LyteClientCore/AudioJitterBuffer.swift:529-550 | Collinear points inside the clamp give their line back exactly. |
| LeastSquaresBest.SlopeIsBest | Client/Sources/LyteClientSession/ClientHostClock.swift:143-160 | The fitted line is the best one: any other line within the clamp misses the points, squared and summed, by at least as much more as the two lines are apart at the points. |
| LeastSquares.FitSlope | Client/Sources/LyteClientCore/AudioJitterBuffer.swift:530-549 | The two loops compute the clamped least-squares slope. |
| AudioJitterPlayer.AudioJitterPlayer.ReceivePacket | Client/Sources/LyteClientCore/AudioJitterBuffer.swift:239-308 | Insert in place: wake, rewind, late, duplicate, re-prime, trim, re-centre. |
| AudioJitterPlayer.AudioJitterPlayer.PullVerdict | Client/Sources/LyteClientCore/AudioJitterBuffer.swift:314-379 | One playout decision, in place. |
| AudioJitterPlayer.AudioJitterPlayer.Recenter | Client/Sources/LyteClientCore/AudioJitterBuffer.swift:430-449 | The overgrowth skip, with its dropping loop. |
| AudioJitterPlayer.AudioJitterPlayer.ResumeAt | Client/Sources/LyteClientCore/AudioJitterBuffer.swift:397-406 | A new playout epoch at a pending packet. |
| AudioJitterPlayer.AudioJitterPlayer.ConcealOr | Client/Sources/LyteClientCore/AudioJitterBuffer.swift:408-419 | Conceals within the budget, then goes quiet. |
| AudioJitterPlayer.AudioJitterPlayer.QuietAnnounced | Client/Sources/LyteClientCore/AudioJitterBuffer.swift:220-223 | An announced quiet is marked and resets the windows; nothing else moves. |
| AudioJitterPlayer.AudioJitterPlayer.Least | Client/Sources/LyteClientCore/AudioJitterBuffer.swift:421-425 | The oldest pending number by a scan. |
| SerialArithmetic.Distance16IsExact | Client/Sources/LyteClientCore/SeqGapTracker.swift:76-101 | Inside a half-range window the wrapped 16-bit distance is the true one. |
| SerialArithmetic.SerialOrder32 | Client/Sources/LyteClientCore/AudioJitterBuffer.swift:421-425 | Inside a half-range window wrapped 32-bit numbers name and order the true positions. |
| AudioAccelerator.ConservationAndRate | Client/Sources/LyteTransport/AudioAccelerator.swift:69-156 | After every call input equals output plus removed plus pending frames; removal stays within one period plus the rate's share; pending stays below one gather; and the samples out are the input with faded periods cut. |
| AudioAccelerator.ProcessAnswers | Client/Sources/LyteTransport/AudioAccelerator.swift:69-156 | A call holds everything back exactly while the bucket is full, it may accelerate and less than two longest periods are gathered; else all of it goes out, with the found period cut exactly when it correlates and the bucket pays for it. |
| AudioAccelerator.CrossfadeBlends | Client/Sources/LyteTransport/AudioAccelerator.swift:126-156 | The crossfade goes from the first period to the second by the ramp, frame by frame and channel by channel. |
| AudioAccelerator.RateBound | Client/Sources/LyteTransport/AudioAccelerator.swift:71-85 | Over any stretch of any run removal is at most one period plus the percentage of the input of that stretch. |
| AudioAccelerator.CutRenders | Client/Sources/LyteTransport/AudioAccelerator.swift:126-156 | One cut replaces two periods by their crossfade and touches nothing else. |
| AudioAccelerator.Accelerate.ProcessPcm | Client/Sources/LyteTransport/AudioAccelerator.swift:69-95 | One pump step in place. |
| AudioAccelerator.Accelerate.CutAndEmit | Client/Sources/LyteTransport/AudioAccelerator.swift:126-156 | The crossfade loop and the budget. |
| AudioAccelerator.Accelerate.Flush | Client/Sources/LyteTransport/AudioAccelerator.swift:98-103 | Hands back everything gathered. |
| AudioRingProtocol.RingIsSafe | Client/Sources/LyteTransport/LyteAudioPlayer.swift:99-188 | For every interleaving of loads, slot copies and publishes, and for stale counter loads, what was rendered is a prefix of what was written, in order, and depth stays within capacity. |
| AudioRingProtocol.RenderNeverStuck | Client/Sources/LyteTransport/LyteAudioPlayer.swift:99-171 | A render that took its share never waits on a slot nobody wrote. |
| AudioRingProtocol.PumpBatchBounds | Client/Sources/LyteTransport/LyteAudioPlayer.swift:405-463 | What the pump writes in one pass is bounded by the accelerator's gather and one packet (a failed decode hands out a packet of silence). |
| AudioRingProtocol.GuardedBatchFits | Client/Sources/LyteClientCore/AudioJitterBuffer.swift:87-95 | The fill guard, the target bound and the gather bound keep every write within the ring. |
| AudioPcmRing.CallSettles | Client/Sources/LyteTransport/LyteAudioPlayer.swift:99-171 | Every call keeps the declick state settled: in an episode the last sample out is where the decay stands. |
| AudioPcmRing.UnderrunFades | Client/Sources/LyteTransport/LyteAudioPlayer.swift:137-150 | Smooth padding falls from the sample before it by one same 96th of the level it decays from, and is true zero after 96 steps. |
| AudioPcmRing.RecoveryFadesIn | Client/Sources/LyteTransport/LyteAudioPlayer.swift:108-159 | After a starved call the output is the stream faded in over 96 samples from the last sample out and exact past them, however the calls that follow cut the stream up. |
| AudioPcmRing.FadeGoesOn | Client/Sources/LyteTransport/LyteAudioPlayer.swift:119-158 | A call, starved or not, goes on with the fade where the last call left it. |
| AudioPcmRing.SeamlessIffNotTrickling | Client/Sources/LyteTransport/LyteAudioPlayer.swift:99-160 | Exactly when the continuity claim holds for a call: whatever its samples, both its seams are smooth, if and only if it is not served in part while an episode goes on. |
| AudioPcmRing.RunSeamlessIff | Client/Sources/LyteTransport/LyteAudioPlayer.swift:99-160 | Over every run of calls on a fresh ring: a call is seamless whatever it carried if and only if it is not served in part right after a starved call. |
| AudioPcmRing.TrickleSeamlessIff | Client/Sources/LyteTransport/LyteAudioPlayer.swift:108-150 | For given samples such a call is seamless only when its stale crossfade level is the last sample out and its last sample lands on the old decay. |
| AudioPcmRing.SteadyIsExact | Client/Sources/LyteTransport/LyteAudioPlayer.swift:124-136 | Outside an episode and its fade the output is the ring's samples exactly. |
| AudioPcmRing.TrickleStepsToSilence | Client/Sources/LyteTransport/LyteAudioPlayer.swift:137-160 | Inputs that break the stated continuity at either seam, on a ring from its start: silence straight after a held level, and full level straight back to silence. |
| AudioPcmRing.PcmRing.Write | Client/Sources/LyteTransport/LyteAudioPlayer.swift:174-188 | Appends to the circular buffer in a loop. |
| AudioPcmRing.PcmRing.Render | Client/Sources/LyteTransport/LyteAudioPlayer.swift:99-171 | Copies, crossfades, pads and settles the declick in its loops, against the specification of the output and the next state. |
| AudioPcmRing.PcmRing.CopyFaded | Client/Sources/LyteTransport/LyteAudioPlayer.swift:124-136 | The copy loop with its crossfade. |
| AudioPcmRing.PcmRing.PadEpisode | Client/Sources/LyteTransport/LyteAudioPlayer.swift:137-150 | The decay tail: a new episode starts at the sample before it, an old one goes on. |
| SessionOwnership.SessionsOwnedOnce | Client/Sources/Lyte/ConnectionModel.swift:328-531 | For every interleaving of user actions, completions, events and policy actions, each session ever built is exactly one of dialing, attached, or ended, and is ended exactly once. |
| SessionOwnership.EventsAreFenced | Client/Sources/Lyte/ConnectionModel.swift:535-539 | In every run no event of an abandoned or detached session is applied and every event of the owned one is; of the ended sessions only one whose own dial failed or found no owner still has its events applied, and only while it is the newest and nothing is dialing or attached. |
| SessionOwnership.LateEventIsHarmless | Client/Sources/Lyte/ConnectionModel.swift:541-602 | Such a late event is one more beat of the policy, or leaves marks that the next session built clears; it attaches, ends, streams and fails nothing. |
| SessionOwnership.FailedDialIsNotFenced | Client/Sources/Lyte/ConnectionModel.swift:535-539 | A run in which the event of a session whose dial failed is applied. |
| SessionOwnership.HoldIsExact | Client/Sources/Lyte/ConnectionModel+Roaming.swift:249-252 | While no turn leaks, the stream hold is taken exactly while the phase is streaming. |
| SessionOwnership.HoldBreaksExactlyOnLeaks | Client/Sources/Lyte/ConnectionModel.swift:247-255 | One turn breaks the hold's exactness if and only if it is a connect from a streaming window or an identity lookup that fails once the window streams. |
| SessionOwnership.HoldIsExactFromIdle | Client/Sources/Lyte/ConnectionModel.swift:247-322 | Connects that start from an idle window keep the hold exact over every run. |
| SessionOwnership.ConnectingTwiceLeaks | Client/Sources/Lyte/ConnectionModel.swift:247-297 | Connecting from a non-streaming phase alone is not enough: a second connect while the first is still connecting can lose the hold. |
| SessionOwnership.NoDialIsStranded | Client/Sources/Lyte/ConnectionModel+Roaming.swift:131-254 | Over every run whose connects start from an idle window, the dial a living policy awaits returns to that policy: adopted, or failed and answered, short of an error that ends a first connect. |
| SessionOwnership.ConnectingTwiceStrands | Client/Sources/Lyte/ConnectionModel.swift:247-297 | A connect over a living policy strands its dial: that dial's return is put to nobody and the policy is left with nothing out. |
| SessionOwnership.DeadOnArrivalIsNotAttached | Client/Sources/Lyte/ConnectionModel.swift:385-400 | A session that ended before adoption is not left attached. |
| SessionOwnership.DisconnectEndsAll | Client/Sources/Lyte/ConnectionModel.swift:501-506 | After a disconnect no session is dialing or attached. |
| SessionOwnership.RunKeeps | Client/Sources/Lyte/ConnectionModel+Roaming.swift:63-253 | The ownership invariant holds after every step of every run. |
| WindowVerdicts.TakenOverEnds | Client/Sources/Lyte/ConnectionModel.swift:674-683 | In every run a takeover ends the attached window whatever its policy says: failed, no policy, nothing attached or dialing, the session ended once. |
| WindowVerdicts.HostLossHunts | Client/Sources/Lyte/ConnectionModel.swift:674-683 | A host that shuts down or falls silent costs the session and not the window: a living policy hunts, and while it asks for nothing the phase, the policy and the hold stay. |
| WindowVerdicts.CapabilitiesVerdict | Client/Sources/Lyte/ConnectionModel.swift:541-565 | Failed capabilities hunt when a fresh session may do better and a policy lives, and else end the window. |
| WindowVerdicts.PoisonedEnds | Client/Sources/Lyte/ConnectionModel.swift:613-623 | Our own teardown passes unless the stream was poisoned; the first such end in a minute hunts, a second ends the window. |
| WindowVerdicts.OtherEventsPass | Client/Sources/Lyte/ConnectionModel.swift:541-602 | A poisoned stream is only marked, a state change is one beat of the policy, the rest pass. |
| WindowVerdicts.EarlyEndWaits | Client/Sources/Lyte/ConnectionModel.swift:541-552 | An end met during the session's own start waits, the first one alone. |
| WindowVerdicts.PolicyAnswers | Client/Sources/Lyte/ConnectionModel+Roaming.swift:63-82 | What each of a living policy's answers makes of the window: nothing, a browse out under this generation, the end. |
| WindowVerdicts.PolicyDials | Client/Sources/Lyte/ConnectionModel+Roaming.swift:63-170 | A dial loses the session and supersedes the dial before it under a fresh epoch; unpinned it ends the window, unready it is put back to the policy. |
| WindowVerdicts.FailedDialAnswers | Client/Sources/Lyte/ConnectionModel+Roaming.swift:172-225 | A dial that failed is ended once and put to the policy of its generation, or ends a first connect that the host answered or the network forbade; an abandoned one changes nothing. |
| WindowVerdicts.CompletedDialAnswers | Client/Sources/Lyte/ConnectionModel+Roaming.swift:172-254 | A completed start is attached to this generation's vacant window, the first opening the stream and taking the hold, with an early end handled now; for another window it is ended once. |
| WindowVerdicts.BrowseAnswers | Client/Sources/Lyte/ConnectionModel+Roaming.swift:104-125 | A browse of this generation is put to the policy, or ends the window on a replaced identity; another's is dropped. |
| WindowVerdicts.LookupAnswers | Client/Sources/Lyte/ConnectionModel.swift:282-321 | A lookup of this generation fails the window or starts a policy; another's is dropped. |
| WindowVerdicts.ConnectAnswers | Client/Sources/Lyte/ConnectionModel.swift:247-281 | A connect supersedes the dial in flight and this generation, and keeps what is attached and the policy. |
| WindowVerdicts.DisconnectAnswers | Client/Sources/Lyte/ConnectionModel.swift:501-506 | A disconnect ends what lives and goes back to the picker; a failure screen with nothing behind it stays. |
| WindowVerdicts.ReconnectAnswers | Client/Sources/Lyte/ConnectionModel+Roaming.swift:16-20 | A reconnect loses the session and hunts, if there is a policy. |
| ConnectionDriver.ConnectionDriver.AbandonDialInFlight | Client/Sources/Lyte/ConnectionModel.swift:512-517 | Ends the dial in flight and fences its events. |
| ConnectionDriver.ConnectionDriver.DetachWireSession | Client/Sources/Lyte/ConnectionModel.swift:429-435 | Ends the attached session and fences its events. |
| ConnectionDriver.ConnectionDriver.End | Client/Sources/Lyte/ConnectionModel.swift:467-496 | Ends the window's session for good and returns the hold it took. |
| ConnectionDriver.ConnectionDriver.UserDisconnect | Client/Sources/Lyte/ConnectionModel.swift:501-506 | The human's exit, whatever the phase. |
| ConnectionDriver.ConnectionDriver.MakeLyteSession | Client/Sources/Lyte/ConnectionModel.swift:328-367 | Builds a session under a fresh epoch. |
| ConnectionDriver.ConnectionDriver.RunAll | Client/Sources/Lyte/ConnectionModel+Roaming.swift:63-82 | Executes the policy's actions in order. |
| ConnectionDriver.ConnectionDriver.CompleteDial | Client/Sources/Lyte/ConnectionModel+Roaming.swift:172-200 | A dial's completion, claimed, fenced and adopted or ended. |
| ConnectionDriver.ConnectionDriver.AdoptDialed | Client/Sources/Lyte/ConnectionModel+Roaming.swift:227-254 | Attaches, informs the policy, opens the stream, replays an early end. |
| ConnectionDriver.ConnectionDriver.CompleteScan | Client/Sources/Lyte/ConnectionModel+Roaming.swift:104-125 | A browse's completion, fenced by generation. |
| ConnectionDriver.ConnectionDriver.Handle | Client/Sources/Lyte/ConnectionModel.swift:541-602 | One event's effect on the window. |
| ConnectionDriver.ConnectionDriver.Deliver | Client/Sources/Lyte/ConnectionModel.swift:535-539 | Applies an event of the current epoch and no other. |
| ConnectionDriver.ConnectionDriver.EndPoisoned | Client/Sources/Lyte/ConnectionModel.swift:613-623 | Tolerates one poisoned end a window. |
| ConnectionDriver.ConnectionDriver.Close | Client/Sources/Lyte/ConnectionModel.swift:674-683 | What a close reason means. |
| ConnectionDriver.ConnectionDriver.UserConnect | Client/Sources/Lyte/ConnectionModel.swift:247-261 | Starts a connect and supersedes what ran. |
| ConnectionDriver.ConnectionDriver.CompleteLookup | Client/Sources/Lyte/ConnectionModel.swift:282-321 | The identity lookup's completion, fenced. |
| ConnectionDriver.ConnectionDriver.LoseSession | Client/Sources/Lyte/ConnectionModel+Roaming.swift:53-58 | Keeps the window and hunts. |
| RoamingRuns.NeverDark | Client/Sources/LyteClientCore/RoamingPolicy.swift:33-38 | At any point of any run begun by connect: a dead unexpired session has a dial out or a deadline within the dial ceiling; wanted scans are in flight, waiting on the dial, or due within the scan ceiling; a silent session has a deadline. |
| RoamingRuns.ConnectWaitsOnItsDial | Client/Sources/LyteClientCore/RoamingPolicy.swift:200-221 | Right after the first connect there is no deadline and no beat acts until the dial is answered. |
| RoamingRuns.DueProbeActs | Client/Sources/LyteClientCore/RoamingPolicy.swift:449-456 | A due probe is taken: the tick ends by dialing the last-known address, or gives up when the budget is out. |
| RoamingRuns.TwoTicksSettle | Client/Sources/LyteClientCore/RoamingPolicy.swift:200-220 | Two ticks at one instant reach a fixed point whose next deadline is later. |
| RoamingRuns.SecondTickActsIff | Client/Sources/LyteClientCore/RoamingPolicy.swift:410-468 | A tick is idempotent at one instant unless, and only unless, it dialed over a due scan. |
| RoamingRuns.TickIsNotIdempotent | Client/Sources/LyteClientCore/RoamingPolicy.swift:410-413 | The comment's idempotence is false: a run of three inputs whose second tick scans. |
| RoamingRuns.OneDialAtATime | Client/Sources/LyteClientCore/RoamingPolicy.swift:519-529 | Over any run dials issued are dials answered plus at most one in flight. |
| RoamingRuns.HeldSightingIsDialed | Client/Sources/LyteClientCore/RoamingPolicy.swift:382-400 | Over any run during which a dial is out: the moment it fails the newest sighting its scans brought from elsewhere is dialed, unless the establishment budget ran out, and then the policy gives up. |
| RoamingRuns.EstablishedNeverGivesUp | Client/Sources/LyteClientCore/RoamingPolicy.swift:33-38 | Once a session is established nothing in any run gives up again, however often it is lost. |
| RoamingRuns.TickTearsDownIff | Client/Sources/LyteClientCore/RoamingPolicy.swift:439-447 | A tick gives a standing session up exactly for a remembered sighting past the silence threshold. |
| RoamingRuns.StandingSessionIsSpared | Client/Sources/LyteClientCore/RoamingPolicy.swift:359-380 | Short of the driver declaring it lost, a standing session is given up only when the host was seen elsewhere, our own address moved, or it stayed silent past the threshold. |
| RoamingRuns.ScanStands | Client/Sources/LyteClientCore/RoamingPolicy.swift:346-381 | For a scan's answer that condition is exact, in both directions. |
| RoamingRuns.BuriedStaysQuietIff | Client/Sources/LyteClientCore/RoamingPolicy.swift:473-480 | Past the budget nothing is dialed or scanned, exactly until a session, a closure or a human's reconnect is reported. |
| RoamingRuns.BuriedDialsAgain | Client/Sources/LyteClientCore/RoamingPolicy.swift:148-149 | A run that expires and is buried, and then scans and dials again after a reconnect by hand. |
| RoamingRuns.RunKeeps | Client/Sources/LyteClientCore/RoamingPolicy.swift:244-468 | The policy's invariant holds after every input of every run. |
| RoamingTargets.RunKnows | Client/Sources/LyteClientCore/RoamingPolicy.swift:253-258 | Over every run the last-known address and port are those of the newest established session, or of the connect if there is none, read off the events alone. |
| RoamingTargets.ProbesGoToTheLastKnown | Client/Sources/LyteClientCore/RoamingPolicy.swift:449-456 | Every blind probe of any run goes there. |
| RoamingTargets.ConnectDialsItsTarget | Client/Sources/LyteClientCore/RoamingPolicy.swift:244-250 | The first connect dials the target it was given. |
| RoamingTargets.KeptWasSeen | Client/Sources/LyteClientCore/RoamingPolicy.swift:346-381 | Over every run a held or remembered sighting is one some scan of the run brought first of the wanted identity. |
| RoamingTargets.SightedDialsWereSeen | Client/Sources/LyteClientCore/RoamingPolicy.swift:346-406 | And so is each sighting any run dials. |
| RoamingAnswers.TickAnswers | Client/Sources/LyteClientCore/RoamingPolicy.swift:414-468 | A beat, whatever the state: exactly when it ends, stirs, dials the remembered host, probes, or scans, and every field it leaves. |
| RoamingAnswers.SessionInputsAnswer | Client/Sources/LyteClientCore/RoamingPolicy.swift:244-298 | What a first connect, an establishment and returning evidence set. |
| RoamingAnswers.SilenceAnswers | Client/Sources/LyteClientCore/RoamingPolicy.swift:277-325 | What falling silent and a path change set, and that a beat or a hunt follows. |
| RoamingAnswers.ClosureAnswers | Client/Sources/LyteClientCore/RoamingPolicy.swift:302-308 | A closure ends the session and hunts. |
| RoamingAnswers.ReconnectAnswers | Client/Sources/LyteClientCore/RoamingPolicy.swift:330-340 | A reconnect by hand ends it too, resets both ladders and hunts afresh. |
| RoamingAnswers.ScanAnswers | Client/Sources/LyteClientCore/RoamingPolicy.swift:346-381 | What a scan's answer does by its first sighting of the identity: dialed at once, remembered, held or nothing, and the next scan on a doubling interval. |
| RoamingAnswers.DialFailureAnswers | Client/Sources/LyteClientCore/RoamingPolicy.swift:389-406 | A failed dial gives up past the budget, makes way for the held sighting, or backs off on a doubling ladder and hunts. |
| RoamingAnswers.LoweredIs | Client/Sources/LyteClientCore/RoamingPolicy.swift:351-353 | Letters are compared without regard to ASCII case and nothing else is changed. |
| RoamingDeadlines.DeadlineIsExact | Client/Sources/LyteClientCore/RoamingPolicy.swift:200-243 | In every run begun by a connect the deadline is exact: until it a beat does nothing, from it on a beat acts, and without one none ever does. |
| RoamingDialer.RoamingDialer.FirstConnect | Client/Sources/LyteClientCore/RoamingPolicy.swift:244-250 | Arms the budget and dials. |
| RoamingDialer.RoamingDialer.OnSessionEstablished | Client/Sources/LyteClientCore/RoamingPolicy.swift:253-274 | The target is learnt and everything else resets. |
| RoamingDialer.RoamingDialer.OnWentSilent | Client/Sources/LyteClientCore/RoamingPolicy.swift:277-281 | Starts the silence clock. |
| RoamingDialer.RoamingDialer.OnEvidenceReturned | Client/Sources/LyteClientCore/RoamingPolicy.swift:286-298 | A standing session is saved. |
| RoamingDialer.RoamingDialer.OnSessionClosed | Client/Sources/LyteClientCore/RoamingPolicy.swift:302-308 | Full roaming. |
| RoamingDialer.RoamingDialer.PathDidChange | Client/Sources/LyteClientCore/RoamingPolicy.swift:314-325 | Grace, or escalation at once. |
| RoamingDialer.RoamingDialer.Reconnect | Client/Sources/LyteClientCore/RoamingPolicy.swift:330-340 | Resets the ladders and acts. |
| RoamingDialer.RoamingDialer.BrowseEnded | Client/Sources/LyteClientCore/RoamingPolicy.swift:346-381 | One scan's sightings judged. |
| RoamingDialer.RoamingDialer.DialDidFail | Client/Sources/LyteClientCore/RoamingPolicy.swift:389-406 | The held sighting, or back-off. |
| RoamingDialer.RoamingDialer.TakeTick | Client/Sources/LyteClientCore/RoamingPolicy.swift:414-468 | The beat in its own order. |
| RoamingDialer.FirstMatch | Client/Sources/LyteClientCore/RoamingPolicy.swift:351-353 | The first sighting that carries the target identity in any case, or proof that none does. |
| SeqGapTracker.GapAccountingIsExact | Client/Sources/LyteClientCore/SeqGapTracker.swift:47-125 | For every stream of raw numbers: missing equals the unrecorded positions between the lowest and highest, arrivals equal distinct plus duplicate plus beyond-window, wraps are the highest's wraps, and the clamp never acts. |
| SeqGapTracker.RecordAgrees | Client/Sources/LyteClientCore/SeqGapTracker.swift:66-125 | Each arrival's observation is what the log of unwrapped positions says, through base extension and retirement. |
| SeqGapTracker.BitsAdvance | Client/Sources/LyteClientCore/SeqGapTracker.swift:129-139 | After the window advances each bit still says exactly whether its position was recorded. |
| SeqGapTracker.NumbersTellPositions | Client/Sources/LyteClientCore/SeqGapTracker.swift:76-101 | When no datagram strays half the number space, raw numbers determine true positions. |
| SeqGapTracker.MissingIsTrueLoss | Client/Sources/LyteClientCore/SeqGapTracker.swift:46-49 | With reordering inside the window, missing is the number of positions between the extremes that never arrived. |
| SeqGapBitmap.GapTracker.Record | Client/Sources/LyteClientCore/SeqGapTracker.swift:66-125 | One arrival, in place. |
| SeqGapBitmap.GapTracker.RecordAhead | Client/Sources/LyteClientCore/SeqGapTracker.swift:82-96 | The highest advances. |
| SeqGapBitmap.GapTracker.RecordBehind | Client/Sources/LyteClientCore/SeqGapTracker.swift:109-124 | A late fill, or the base extends. |
| SeqGapBitmap.GapTracker.AdvanceSeen | Client/Sources/LyteClientCore/SeqGapTracker.swift:129-139 | A new bitmap, or slot-by-slot clearing. |
| SeqGapBitmap.GapTracker.ForgetNext | Client/Sources/LyteClientCore/SeqGapTracker.swift:134-138 | The clearing loop. |
| SeqGapBitmap.GapTracker.MarkSeen | Client/Sources/LyteClientCore/SeqGapTracker.swift:151-154 | Sets one bit of one word. |
| SeqGapBitmap.GapTracker.Forget | Client/Sources/LyteClientCore/SeqGapTracker.swift:156-159 | Clears one bit. |
| SeqGapBitmap.GapTracker.IsSeen | Client/Sources/LyteClientCore/SeqGapTracker.swift:146-149 | Reads one bit. |
| SeqGapBitmap.SetSlot | Client/Sources/LyteClientCore/SeqGapTracker.swift:141-154 | A word's or-mask adds exactly its slot to the set the bitmap stands for. |
| SeqGapBitmap.ClearSlot | Client/Sources/LyteClientCore/SeqGapTracker.swift:141-159 | A word's and-not-mask removes exactly its slot. |
| InputReplay.NoStuckInput | Client/Sources/Lyte/InputForwardingPolicy.swift:80-205 | After any events, every key down on the host is held here or is the chord's Ctrl, its buttons are the held ones, and releasing everything leaves nothing down. |
| InputReplay.ReleaseAllEmpties | Client/Sources/Lyte/InputForwardingPolicy.swift:194-205 | Releasing everything empties the host from any contained state. |
| InputReplay.ApplyContained | Client/Sources/Lyte/InputForwardingPolicy.swift:80-190 | Each event keeps the host's down set contained. |
| InputExact.ExactIffNotBreaking | Client/Sources/Lyte/InputForwardingPolicy.swift:80-263 | From any state in which the host holds down exactly what the client does, one event leaves it so if and only if it neither lets one of two holders of left Ctrl go nor taps a held Caps Lock. |
| InputExact.ExactOverRuns | Client/Sources/Lyte/InputForwardingPolicy.swift:80-263 | Over any run without a breaking event the host ends up holding exactly what the client does. |
| InputExact.ExactThroughoutIff | Client/Sources/Lyte/InputForwardingPolicy.swift:80-263 | A run is exact after every event if and only if none of its events breaks. |
| InputExact.ExactUnlessShared | Client/Sources/Lyte/InputForwardingPolicy.swift:80-263 | So a run is exact throughout when no chord key is left Ctrl, no press reports left Ctrl down while a chord holds it, and no held Caps Lock is tapped. |
| InputAnswers.KeyDownAnswers | Client/Sources/Lyte/InputForwardingPolicy.swift:80-111 | Which presses go out, last in their batch, which stay with the client, and what a forwarded press leaves held, pending, in the chord and of the lock, in one step. |
| InputAnswers.KeyUpAnswers | Client/Sources/Lyte/InputForwardingPolicy.swift:115-131 | What a release sends, forgets and leaves to the local app. |
| InputAnswers.ModifierAnswers | Client/Sources/Lyte/InputForwardingPolicy.swift:133-161 | A command key waits for a press and is forgotten if let go first; left Ctrl takes over a chord; other modifiers go out. |
| InputAnswers.ButtonAnswers | Client/Sources/Lyte/InputForwardingPolicy.swift:170-190 | A button goes down on the video only and up only if held; the rest is the local app's. |
| InputAnswers.CapsAndReleaseAnswer | Client/Sources/Lyte/InputForwardingPolicy.swift:164-225 | A lock change taps the key if the host disagrees; a release forgets everything but the host's lock. |
| InputExact.SharedIff | Client/Sources/Lyte/InputForwardingPolicy.swift:80-152 | Left Ctrl comes to be held twice, by a chord and as a key, by exactly those presses. |
| InputExact.SharedCtrlIsLost | Client/Sources/Lyte/InputForwardingPolicy.swift:88-126 | A run that ends with left Ctrl held here and nothing down on the host. |
| InputExact.ReleaseMatchesPress | Client/Sources/Lyte/InputForwardingPolicy.swift:115-126 | A key's release goes out as the code its press went out as, whatever happened or was remapped between. |
| InputExact.CapsLockFollows | Client/Sources/Lyte/InputForwardingPolicy.swift:161-222 | Short of Caps Lock being pressed as an ordinary key, the host's lock is as driven, and forwarded presses and lock changes bring it to the reported state. |
| InputExact.SuperOnlyInAChord | Client/Sources/Lyte/InputForwardingPolicy.swift:133-140 | A command key goes down on the host only in the batch of a forwarded key or button press, which ends the batch: ahead of it, or as the forwarded key itself. |
| InputForwarder.InputForwarder.KeyWentDown | Client/Sources/Lyte/InputForwardingPolicy.swift:80-113 | A press, its gates in order. |
| InputForwarder.InputForwarder.KeyWentUp | Client/Sources/Lyte/InputForwardingPolicy.swift:115-130 | A release. |
| InputForwarder.InputForwarder.ModifierChanged | Client/Sources/Lyte/InputForwardingPolicy.swift:133-159 | A modifier edge. |
| InputForwarder.InputForwarder.ButtonChanged | Client/Sources/Lyte/InputForwardingPolicy.swift:170-190 | A button edge. |
| InputForwarder.InputForwarder.ReleaseEverything | Client/Sources/Lyte/InputForwardingPolicy.swift:194-205 | Focus loss. |
| InputForwarder.InputForwarder.MatchModifiers | Client/Sources/Lyte/InputForwardingPolicy.swift:227-239 | Stale edges released, missing ones pressed. |
| InputForwarder.InputForwarder.HoldCommandBack | Client/Sources/Lyte/InputForwardingPolicy.swift:243-248 | A forwarded command is held back. |
| InputForwarder.InputForwarder.MatchCommand | Client/Sources/Lyte/InputForwardingPolicy.swift:253-263 | The command joins or drops. |
| LinkHealthWindow.AssessmentIsExact | Client/Sources/LyteClientCore/LinkHealthMeter.swift:176-214 | For failures in time order and not later than now, the window's count, worst peak and split are those of the episodes begun in the current second or the 59 before; the session books are those of every episode. |
| LinkHealthWindow.WindowIsRecent | Client/Sources/LyteClientCore/LinkHealthMeter.swift:181-191 | Sixty reused buckets summed equal the log's recent episodes. |
| LinkHealthWindow.IncrementHolds | Client/Sources/LyteClientCore/LinkHealthMeter.swift:226-243 | A new episode evicts only a second that has left the window. |
| LinkHealthWindow.ReplaceLastHolds | Client/Sources/LyteClientCore/LinkHealthMeter.swift:245-263 | A worse frame of the last episode moves its bucket's peak and stage exactly. |
| LinkHealthWindow.OverlappingScans | Client/Sources/LyteClientCore/LinkHealthMeter.swift:94-101 | Feeding a prefix of the recorder and then again from anywhere inside it is feeding the recorder once. |
| LinkHealthVerdicts.VerdictIs | Client/Sources/LyteClientCore/LinkHealthMeter.swift:94-214 | By the failed frames alone, grouped where they fail within half a second: poor exactly when three groups began in the last minute or a frame of one was a tenth of a second late, degraded when any did; and which stage dominates. |
| LinkHealthVerdicts.SessionBooksAre | Client/Sources/LyteClientCore/LinkHealthMeter.swift:94-171 | The session books count every group of the sitting and its latest frame. |
| LinkHealthBooks.LinkHealthBooks.ObserveFrame | Client/Sources/LyteClientCore/LinkHealthMeter.swift:94-150 | One frame folded in place. |
| LinkHealthBooks.LinkHealthBooks.IncrementBucket | Client/Sources/LyteClientCore/LinkHealthMeter.swift:226-243 | Reuses or extends a bucket. |
| LinkHealthBooks.LinkHealthBooks.UpdateEpisodePeak | Client/Sources/LyteClientCore/LinkHealthMeter.swift:245-263 | Moves a peak in place. |
| LinkHealthBooks.LinkHealthBooks.Assess | Client/Sources/LyteClientCore/LinkHealthMeter.swift:176-214 | The summing loop and the verdict. |
| LinkHealthBooks.LinkHealthBooks.ResetEpochKeepingSessionBooks | Client/Sources/LyteClientCore/LinkHealthMeter.swift:168-171 | A new epoch; the session books stay. |
| LinkHealthBooks.LinkHealthBooks.ResetSessionBooks | Client/Sources/LyteClientCore/LinkHealthMeter.swift:158-163 | A new sitting: the window, the mark and the session totals are all cleared. |
| ClientNackPolicy.BookWalkRefinesRangeWalk | Client/Sources/LyteClientSession/ClientNackPolicy.swift:200-235 | Walking the books gives the same books, counters and ordered escalations as visiting every frame of a wrapping range of up to 2^32. |
| ClientNackPolicy.Pigeonhole | Client/Sources/LyteClientSession/ClientNackPolicy.swift:222-223 | The count test holds if and only if some frame of the range has no book. |
| NackRuns.BooksStayBounded | Client/Sources/LyteClientSession/ClientNackPolicy.swift:372-381 | However many frames the host names, the books stay within the ceiling and well formed. |
| NackRuns.EachShardAskedOnce | Client/Sources/LyteClientSession/ClientNackPolicy.swift:358-370 | Over any run that keeps a frame's book the shards asked are exactly those the book gains, none twice. |
| NackRuns.AskedOnceIff | Client/Sources/LyteClientSession/ClientNackPolicy.swift:327-370 | Over any run whatever a shard is asked at most once if and only if no later input meets the asking rules for it again. |
| NackRuns.AsksShardIff | Client/Sources/LyteClientSession/ClientNackPolicy.swift:327-370 | Exactly when a shard is asked: named by a candidate past parity whose age and round trip come to less than the stale budget, of a frame with no book, or one live, not refused, that has not asked it. |
| NackRuns.AskSends | Client/Sources/LyteClientSession/ClientNackPolicy.swift:327-370 | The one entry sent asks for exactly those shards, at once. |
| NackRuns.AskNotes | Client/Sources/LyteClientSession/ClientNackPolicy.swift:358-370 | The book notes them, and the first starts the frame's repair clock. |
| NackRuns.RefusedIff | Client/Sources/LyteClientSession/ClientNackPolicy.swift:344-356 | A frame is refused exactly when it was, or when a candidate finds it live, unasked, past parity and too late. |
| NackRuns.RefusedIsNeverAsked | Client/Sources/LyteClientSession/ClientNackPolicy.swift:344-356 | Over any run that keeps its book, a frame refused as stale is never asked for again. |
| NackBookLife.BookAnswers | Client/Sources/LyteClientSession/ClientNackPolicy.swift:181-322 | What each input writes in a book: how its frame ends, what it accepts, and what keeps it. |
| NackBookLife.BookComesAndGoes | Client/Sources/LyteClientSession/ClientNackPolicy.swift:300-381 | Exactly when a frame has a book after an input: opened by a candidate, taken by the ceiling, or lapsed two deadlines after it settled. |
| NackBookLife.RangeEscalates | Client/Sources/LyteClientSession/ClientNackPolicy.swift:200-235 | When a range goes away just its asked frames are escalated, in range order; with none, its first frame exactly when some frame of it had not settled, a frame without a book included; and the whole loss is counted then. |
| NackBookLife.ClockIsFirstAsk | Client/Sources/LyteClientSession/ClientNackPolicy.swift:358-370 | Over any run that keeps its book a frame's repair clock runs from the first time anything of it was asked for. |
| NackBookLife.DefersIff | Client/Sources/LyteClientSession/ClientNackPolicy.swift:288-298 | So the IDR waits exactly for a frame nobody settled, first asked for less than the repair deadline ago. |
| NackCounters.AskCounts | Client/Sources/LyteClientSession/ClientNackPolicy.swift:327-370 | What an ask counts: the first time past parity, the entry and its shards, or that it came too late. |
| NackCounters.AnswerCounts | Client/Sources/LyteClientSession/ClientNackPolicy.swift:181-262 | What repairs, decodes and dropped shards count. |
| NackCounters.EndCounts | Client/Sources/LyteClientSession/ClientNackPolicy.swift:200-322 | What gone ranges, refusals, beats and held IDRs count. |
| NackCounters.CountsAddUp | Client/Sources/LyteClientSession/ClientNackPolicy.swift:181-370 | Over any run from any state the counters add up: entries to the entries sent, the give-ups to the escalations sent, refusals to those heeded and ignored. |
| NackCounters.CountsOfARun | Client/Sources/LyteClientSession/ClientNackPolicy.swift:181-370 | From the start they are those sums. |
| NackRuns.ShardAskedTwice | Client/Sources/LyteClientSession/ClientNackPolicy.swift:358-370 | Under every configuration that asks at all, a run that asks for one shard twice: its book lingers out in between. |
| NackRuns.EscalationsAreExact | Client/Sources/LyteClientSession/ClientNackPolicy.swift:264-322 | Who is escalated, exactly: the asked frames whose wait the input ends, each once, or the first frame of a broken range that held none. |
| NackRuns.GivenUpOnce | Client/Sources/LyteClientSession/ClientNackPolicy.swift:300-322 | Over any run that keeps its book a frame's repair is given up on at most once, and never after it decoded. |
| NackBooks.NackBooks.RangeWentAway | Client/Sources/LyteClientSession/ClientNackPolicy.swift:200-235 | The gone range, in place. |
| NackBooks.NackBooks.WalkBooks | Client/Sources/LyteClientSession/ClientNackPolicy.swift:207-221 | The loop over the books. |
| NackBooks.NackBooks.CandidatesSeen | Client/Sources/LyteClientSession/ClientNackPolicy.swift:327-370 | The ask, its rules and its dedupe. |
| NackBooks.NackBooks.OldestBook | Client/Sources/LyteClientSession/ClientNackPolicy.swift:374-378 | The book touched longest ago. |
| NackBooks.NackBooks.TickBeat | Client/Sources/LyteClientSession/ClientNackPolicy.swift:301-322 | Deadlines, then hygiene, in one loop. |
| NackBooks.NackBooks.RefusalSeen | Client/Sources/LyteClientSession/ClientNackPolicy.swift:268-285 | A refusal ends a live ask. |
| NackBooks.NackBooks.RepairSeen | Client/Sources/LyteClientSession/ClientNackPolicy.swift:181-190 | A repair shard is counted and recorded. |
| NackBooks.NackBooks.DecodeSeen | Client/Sources/LyteClientSession/ClientNackPolicy.swift:191-199 | A decode settles a book. |
| NackBooks.NackBooks.ShouldDeferFecImpossible | Client/Sources/LyteClientSession/ClientNackPolicy.swift:288-298 | Whether a live ask holds the IDR. |
| FeedbackRuns.NewsIsRepeatedTwice | Client/Sources/LyteClientSession/ClientFeedbackReporter.swift:77-127 | With beats at most 50 ms apart, a report of news is followed by at least two more within 260 ms, whatever further news arrives. |
| FeedbackRuns.HeartbeatBoundsSilence | Client/Sources/LyteClientSession/ClientFeedbackReporter.swift:74-76 | The client is never silent longer than the heartbeat and one beat. |
| FeedbackRuns.NacksLeaveInOrder | Client/Sources/LyteClientSession/ClientFeedbackReporter.swift:91-96 | Entries sent and then those pending are, in order, among those queued: only the oldest are dropped. |
| FeedbackRuns.QueueStaysCapped | Client/Sources/LyteClientSession/ClientFeedbackReporter.swift:72-96 | The queue stays within its cap. |
| FeedbackRuns.ArrivalsAreConserved | Client/Sources/LyteClientSession/ClientFeedbackReporter.swift:152-184 | Every arrival handed to a report is sampled or counted as decimated. |
| FeedbackRuns.DecimationIsEven | Client/Sources/LyteClientSession/ClientFeedbackReporter.swift:173-178 | Kept samples are distinct and in order and their gaps differ by at most one. |
| FeedbackAnswers.ReportsExactlyWhenDue | Client/Sources/LyteClientSession/ClientFeedbackReporter.swift:100-147 | In every run a beat reports exactly when due by the reports before it: not idle, first, on news, on either echo of the last news, or two seconds after the last. |
| FeedbackAnswers.BooksAddUp | Client/Sources/LyteClientSession/ClientFeedbackReporter.swift:119-184 | The books of a run count just the entries it sent and the arrivals it reported. |
| FeedbackAnswers.SamplesAre | Client/Sources/LyteClientSession/ClientFeedbackReporter.swift:152-184 | A report's samples count from its earliest arrival, in order, those past the field's width left out, and every one of them when at most 112 are left. |
| FeedbackShell.FeedbackShell.EnqueueNacks | Client/Sources/LyteClientSession/ClientFeedbackReporter.swift:91-96 | Append, then drop the oldest past the cap. |
| FeedbackShell.FeedbackShell.BeatIsDue | Client/Sources/LyteClientSession/ClientFeedbackReporter.swift:100-115 | Whether this beat sends. |
| FeedbackShell.FeedbackShell.MakeReport | Client/Sources/LyteClientSession/ClientFeedbackReporter.swift:119-147 | The report and its books. |
| FeedbackShell.FeedbackShell.Disperse | Client/Sources/LyteClientSession/ClientFeedbackReporter.swift:152-184 | Deltas, decimation and their books. |
| FeedbackShell.TakeDeltas | Client/Sources/LyteClientSession/ClientFeedbackReporter.swift:158-172 | The loop that keeps the deltas that fit. |
| ClientBeaconEcho.HonestSampleIsClose | Client/Sources/LyteClientSession/ClientBeaconEcho.swift:90-101 | An honest exchange closes a sample whose round trip is the two legs and whose offset is within half of it of the truth, up to one division's rounding. |
| ClockExchange.HonestMirrorCloses | Client/Sources/LyteClientSession/ClientBeaconEcho.swift:67-107 | A verbatim mirror of a remembered echo that reports a true exchange within the plausible round trip closes its sample: its round trip is the two legs, its offset within half of it. |
| ClientBeaconEcho.OnlyOwnEchoesClose | Client/Sources/LyteClientSession/ClientBeaconEcho.swift:82-106 | A sample closes only for a mirror of an echo this book sent, verbatim, with plausible times. |
| ClientBeaconEcho.SampleIs | Client/Sources/LyteClientSession/ClientBeaconEcho.swift:90-101 | What a closed sample says, in 64 bits: the round trip without the turnaround, and half of what both legs say, toward zero. |
| ClientBeaconEcho.AnswerIs | Client/Sources/LyteClientSession/ClientBeaconEcho.swift:67-107 | Exactly when a beacon closes a sample, what it spends of the echoes remembered, and when it is refused. |
| ClientBeaconEcho.SamplesNeverOutnumberEchoes | Client/Sources/LyteClientSession/ClientBeaconEcho.swift:67-107 | Hostile mirrors included, no more samples close for a number than echoes were sent for it, and at most sixteen are remembered. |
| ClientBeaconEcho.EchoBook.AnswerBeacon | Client/Sources/LyteClientSession/ClientBeaconEcho.swift:67-107 | One beacon answered in place. |
| ClockBounds.WindowStaysSound | Client/Sources/LyteClientSession/ClientHostClock.swift:95-109 | The window holds at most its count, only plausible samples, none older than the window. |
| ClockBounds.FitExists | Client/Sources/LyteClientSession/ClientHostClock.swift:126-138 | There is a fit exactly when there is a sample. |
| ClockAnswers.IngestAnswers | Client/Sources/LyteClientSession/ClientHostClock.swift:95-109 | Exactly which samples the window keeps of those before and the new one. |
| ClockAnswers.FitTakes | Client/Sources/LyteClientSession/ClientHostClock.swift:126-138 | The fit is over the samples within the gate of the least round trip, those and no others. |
| ClockAnswers.FitIsBest | Client/Sources/LyteClientSession/ClientHostClock.swift:139-179 | Over those its line is the best within the clamp, or the best level one when they are few; its offset at the anchor is the nearest integer, and its residual the farthest any of them lies off. |
| ClockAnswers.MapDiverges | Client/Sources/LyteClientSession/ClientHostClock.swift:69-80 | A skew of exactly one sends the map to the end of time away from the anchor. |
| ClockBounds.OffsetOnlyFitIsClose | Client/Sources/LyteClientSession/ClientHostClock.swift:126-179 | An offset-only fit of honest samples is within half of (least round trip plus gate) of the truth, up to rounding. |
| ClockExchange.HonestRunFitsClose | Client/Sources/LyteClientSession/ClientHostClock.swift:95-179 | From a fresh book and clock: over any run of beacons whose closing mirrors report true exchanges, through answers and window, the offset-only fit has that bound. |
| ClockOrder.FitIgnoresOrder | Client/Sources/LyteClientSession/ClientHostClock.swift:126-179 | Samples measured at distinct times fit the same in whatever order they stand. |
| ClockBounds.CentroidIsClose | Client/Sources/LyteClientSession/ClientHostClock.swift:143-160 | Where the accepted samples balance, the fitted line has the same bound whatever its skew. |
| ClockBounds.SteadyDriftIsRecovered | Client/Sources/LyteClientSession/ClientHostClock.swift:141-179 | Samples on one drift line within the clamp are recovered exactly, with no residual. |
| ClockBounds.MapSolvesItsEquation | Client/Sources/LyteClientSession/ClientHostClock.swift:69-80 | The unrounded map solves its equation exactly and the map is within half a microsecond of it. |
| ClockBounds.MapIsMonotone | Client/Sources/LyteClientSession/ClientHostClock.swift:71-80 | With a skew inside (-1, 1) the map never runs backwards. |
| HostClockModel.HostClock.IngestSample | Client/Sources/LyteClientSession/ClientHostClock.swift:95-109 | One sample in place; the cache goes. |
| HostClockModel.HostClock.CurrentEstimate | Client/Sources/LyteClientSession/ClientHostClock.swift:119-124 | The cached fit is never stale. |
| HostClockModel.HostClock.MapHost | Client/Sources/LyteClientSession/ClientHostClock.swift:183-185 | Maps through the current fit, whatever skew the configuration allows. |
| HostClockModel.FitWindow | Client/Sources/LyteClientSession/ClientHostClock.swift:126-179 | The fit's passes over the samples compute its definition. |
| BrowserInputQueue.CoalescingIsInvisible | Browser/Sources/LyteClientBrowserCore/BrowserInputQueue.swift:25-59 | Replaying what left the queue and then what waits gives the same edges in order, each at the same pointer position and totals, as replaying every accepted event; the queue keeps its capacity. |
| BrowserInputQueue.CoalescePreservesMeaning | Browser/Sources/LyteClientBrowserCore/BrowserInputQueue.swift:44-59 | A merged event does what the two did, and edges never merge. |
| BrowserInputQueue.EnqueueAnswers | Browser/Sources/LyteClientBrowserCore/BrowserInputQueue.swift:25-59 | An event joins the last one waiting exactly when they are alike and the wire can carry both in one; else it waits, and only a full queue refuses it. |
| BrowserInputQueue.StallReplaysOnePosition | Browser/Sources/LyteClientBrowserCore/BrowserInputQueue.swift:4-9 | However many moves are offered, no two absolute positions wait side by side. |
| BrowserInputQueue.InputQueue.EnqueueBody | Browser/Sources/LyteClientBrowserCore/BrowserInputQueue.swift:25-36 | Merges into the tail, refuses, or appends. |
| BrowserInputQueue.InputQueue.RemoveFirst | Browser/Sources/LyteClientBrowserCore/BrowserInputQueue.swift:38-40 | Pops the front. |
| SyntheticMotion.MarkerReadsBack | Client/Sources/LyteCorpus/SyntheticMotionReference.swift:47-60 | Whatever is painted under it, a frame's marker reads back as the number's low 24 bits. |
| SyntheticMotion.RoundTripsIff | Client/Sources/LyteCorpus/SyntheticMotionReference.swift:47-112 | The round trip is exact if and only if the number is below 2^24. |
| SyntheticMotion.MovingStays | Client/Sources/LyteCorpus/SyntheticMotionReference.swift:71-96 | Every moving shape lies on the canvas at every permitted size. |
| SyntheticCanvas.PaintAndRead | Client/Sources/LyteCorpus/SyntheticMotionReference.swift:17-112 | Painting any frame on a canvas of any permitted size and reading it back gives the low 24 bits, in the pixel buffer itself. |
| SyntheticCanvas.Canvas.constructor | Client/Sources/LyteCorpus/SyntheticMotionReference.swift:17-45 | Background and grid loops. |
| SyntheticCanvas.Canvas.Fill | Client/Sources/LyteCorpus/SyntheticMotionReference.swift:123-139 | The nested fill loops paint exactly the clipped rectangle. |
| SyntheticCanvas.Canvas.PaintFrame | Client/Sources/LyteCorpus/SyntheticMotionReference.swift:62-99 | Bars, box, square, marker, in order. |
| SyntheticCanvas.Canvas.PaintMarker | Client/Sources/LyteCorpus/SyntheticMotionReference.swift:101-112 | The marker's blocks. |
| SyntheticCanvas.Canvas.Marker | Client/Sources/LyteCorpus/SyntheticMotionReference.swift:47-60 | The reading loop. |

## Left out

- The frame assembler and the beat conductor are nondeterministic: units arrive in frame order with a skip before any gap, and the beat's verdict is an input.
- Recovery demands of the repair policy inside the browser player are skip events; the repair policy is modelled on its own.
- The autocorrelation search and the cosine ramp of the accelerator: a period in range with a correlation, or none, and any ramp of weights, are inputs.
- Channels: one channel of samples is modelled; the others move alike.
- The microsecond underrun count, histograms, deviation window, signal evidence and all statistics text.
- Floating-point rounding, NaN and the saturating conversions to 64-bit integers, other than a map's at a skew of exactly one; the residual RMS of the clock fit.
- Weak memory beyond stale counter loads: a load may return any earlier published value.
- Case folding of identity hashes beyond ASCII, the banner lines and the status of the roaming policy.
- Features of an attached session (clipboard, cursor, audio routing, bulk transfer) and the window's deallocation while work is in flight.
- The policy inside the window model is any sequence of actions; the policy itself is modelled in full beside it, and the two meet only in that its dial is answered.
- Which of several equally old books a full repair policy evicts, and the order of a beat's escalations, follow the dictionary and are left open.
- The wire encoding of feedback reports and the ledgers' 32-bit truncation.
- The alpha byte of a pixel; a pixel's bytes are one value.
- UI, decoders, sockets, keychain and discovery code.
