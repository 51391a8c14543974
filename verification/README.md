# Base station layer 2 and above: a verified model

This project models the stateful algorithms of a GSM base station's common layer, the part between
the radio hardware and the network interfaces, and proves what they guarantee over whole runs.

There is one Dafny module per component. Where the program changes an object step by step, the
module has a class with the same fields and methods, and each method is proved equal to a function
on values; what the component is for is then proved about that function, for every input and for
every run of operations. Where the code falls short of a guarantee, the exact condition under which
it holds is proved instead.

| file | component |
|---|---|
| `Basics.dfy` | octets, optional values, distances |
| `Tdma.dfy` | frame numbers modulo the hyperframe, C division |
| `UplinkScheduler.dfy` | reconstruction of lost uplink bursts |
| `DownlinkQueue.dfy` | picking the downlink primitive for a frame |
| `FacchRepetition.dfy` | repetition of downlink FACCH frames |
| `SidReshaper.dfy` | when a SID frame goes out in a downlink speech pause |
| `PowerControl.dfy` | averaging filter and downlink power control |
| `LoopEnergy.dfy` | an energy that the control loop never raises |
| `PowerLoop.dfy` | the control loop closed over a path, with the filter in it |
| `PowerRamp.dfy` | stepwise change of the transmit power |
| `Measurement.dfy` | uplink measurement results of a reporting period |
| `MobileAllocation.dfy` | Mobile Allocation bit map for the packet control unit |
| `Agch.dfy` | merging and dropping of immediate assignment rejects |
| `PagingGroup.dfy` | which paging group a frame serves |
| `PagingMessage.dfy` | packing of paging requests of types 1, 2 and 3 |
| `EtwsPages.dfy` | pages of an emergency warning in paging requests |
| `EtwsReading.dfy` | what a mobile reads from those pages |
| `Paging.dfy` | what one paging block takes from a queue |
| `PagingQueues.dfy` | the paging queues and their counter |
| `Cbch.dfy` | SMS cell broadcast and the lifetime of its messages |
| `Osmux.dfy` | circuit IDs and shared handles |
| `SysInfo.dfy` | turns of system information on BCCH and SACCH |

Inputs that come from outside the modelled code are parameters: the clock, random numbers,
confirmations from the hardware, whether the packet control unit is connected, and results of
library functions. A module says in its comments which these are. Everything else, in particular
the wrap-around of frame numbers and of 8-bit and 32-bit counters and C's division, is written out.

Findings, each with the member that states it. Those named `...ExactlyWhen` give the condition in
both directions; the others state what the operation concerned does.

- The averaging filter leaves the range of its samples when all of them are negative and the
  smoothing factor is below 50 %: the first average is rounded up by one
  (`PowerControl.RangeIsKeptExactlyWhen`).
- The downlink power control loop always comes to rest (`PowerLoop.FilteredLoopComesToRest`). On its
  way it can pass the window if the steps are wide for it, and does so with the default parameters
  (`PowerLoop.DefaultsPassTheWindow`); with small ones it does not (`PowerLoop.CourseIsKept`).
- A power ramp overshoots when a start turns it around, to a target more than one step lower, before
  the level that it took as a shortcut was ever requested (`PowerRamp.NeverOvershootsExactlyWhen`; a
  run that does is `ShortcutOvershoots`).
- A confirmation that comes while another step waits makes the next change wider than one step
  (`PowerRamp.StepwiseExactlyWhen`), and completion is reported again for every confirmation beyond
  the changes a ramp has (`PowerRamp.CompletesOnceExactlyWhen`).
- The search for a free Osmux circuit looks at all of them only when it starts at circuit 0; its
  message that all circuits are in use may be wrong otherwise (`Osmux.FailureIsExhaustionExactlyWhen`).
- A channel set up with a local address that does not parse leaves a circuit reserved for good
  (`Osmux.Channels.Init`).
- Across the end of the hyperframe a paging cycle serves every group once only if it has two, four or
  eight multiframes (`PagingGroup.ServedOnceExactlyWhen`).
- A page is put at the head of its queue so that it goes out at once. An IMSI is overtaken all the
  same when the block looks at four records of which two or three are TMSIs
  (`Paging.HeadIsSentExactlyWhen`), and one or two IMSIs ahead of enough unexpired TMSIs are overtaken
  for ever (`Paging.OvertakenForeverExactlyWhen`).
- With a limit of one paging record the priority of circuit-switched paging never ends
  (`Paging.LastsForeverExactlyWhen`).
- An identity that is neither an IMSI nor a TMSI is lost in a TMSI slot, which then calls the mobile
  with TMSI zero (`PagingQueues.AnsweredExactlyWhen`; a queue of three such is
  `Paging.OtherIdentityIsBlank`).
- Records left in queues that no frame of the CCCH leads to any more after an update of the channel
  parameters use up the limit until a reset or an update that serves them again
  (`PagingGroup.VisitedExactlyWhen`, `PagingQueues.PagingState.RunStuck`).
- With a limit of one paging record the priority of circuit-switched paging never ends
  (`Paging.LastsForeverExactlyWhen`).
- An identity that is neither an IMSI nor a TMSI is lost in a TMSI slot, which then calls the mobile
  with TMSI zero (`PagingQueues.AnsweredExactlyWhen`; a queue of three such is
  `Paging.OtherIdentityIsBlank`).
- Records left in queues that no frame leads to any more after an update of the channel parameters
  stay there and use up the limit until a reset (`PagingGroup.VisitedExactlyWhen`,
  `PagingQueues.UnservedTakeSpace`).
- A new ETWS notification does not restart at its first page; it can be sent only if the page that
  was due exists in it (`EtwsPages.EtwsState.Command`; a run where it does not is
  `EtwsPages.ShorterNotificationIsNotReady`). Page numbers have four bits, so a notification
  of more than 15 pages cannot be put together (`EtwsReading.ReassemblesExactlyWhen`). The notification
  identifier is toggled but never transmitted (`EtwsReading.PageReadsBack`).
- A call takes the next primitive due at its frame whether it is for its channel or not, so a
  mismatched one uses up a call (`DownlinkQueue.SentExactlyWhen`). Of the two that a traffic channel
  takes, the second is neither used nor freed exactly if it is for the channel and the first is not
  (`DownlinkQueue.LostExactlyWhen`).
- The length of the Mobile Allocation counts a transceiver frequency twice if two transceivers share
  it (`MobileAllocation.LengthIsCellSizeExactlyWhen`), and is kept in eight bits
  (`MobileAllocation.OctetLengthExactlyWhen`).
- A broadcast message is leaked exactly if it is still on air when the next cycle starts
  (`Cbch.CbchState.CbchGet`). From whatever multiframe a cell starts with, that needs a multiframe
  missed later on (`Cbch.Broadcaster.Get`); a run that leaks is `Cbch.MissedCycleLeaks`.
- The promise that system information 13 goes out within four occasions fails when the packet
  control unit comes and goes (`SysInfo.SufficesExactlyWhen`, `SysInfo.ShortStretchesStarve`).

## Model

| member | source | states |
|---|---|---|
| UplinkScheduler.Timeslot.CountLost | src/common/scheduler.c:1467-1482 | The first walk counts exactly the frames of the channel strictly between its last burst and this one; the 8-bit loop counter does not wrap |
| UplinkScheduler.Timeslot.SubstituteLost | src/common/scheduler.c:1484-1528 | The second walk delivers one dummy burst for each counted frame, in order, and the counter of lost frames is back to zero |
| UplinkScheduler.Timeslot.CalcFrameLoss | src/common/scheduler.c:1426-1531 | Substitutes the gap before a burst as specified, and reports a gap longer than the period; the bookkeeping of the channel is unchanged |
| UplinkScheduler.Timeslot.UlBurst | src/common/scheduler.c:1559-1627 | On a dedicated channel that has had a burst and does not wait for a handover access burst, a gap up to the period is filled with exactly its slots; RACH, PDTCH and PTCCH, a channel waiting for handover, a first burst and a longer gap get the received burst alone, and an inactive channel nothing |
| UplinkScheduler.BurstDelivers | src/common/scheduler.c:1426-1627 | The same for the specified step, with the channel state afterwards: last frame, number of bursts, no losses left |
| UplinkScheduler.BurstFillsGap | src/common/scheduler.c:1426-1531 | The slots delivered are exactly those of the gap |
| UplinkScheduler.OffsetIsRemainder | src/common/scheduler.c:1573-1575 | The position in the table is the frame number modulo the period |
| UplinkScheduler.AtIsModulo | src/common/scheduler.c:1573-1577 | A frame is looked up in the table at its number modulo the period |
| UplinkScheduler.ChannelsAreIndependent | src/common/scheduler.c:1559-1627 | On a timeslot shared by several channels, any run of bursts gives each active channel exactly what it would get alone |
| UplinkScheduler.WindowIsEveryFrame | src/common/scheduler.c:1509-1528 | The substitutes for a gap are exactly the frames in it that the table gives to the channel, with the block position of the table |
| UplinkScheduler.WindowOnce | src/common/scheduler.c:1509-1528 | Substitutes run forward in time, no frame occurs twice |
| UplinkScheduler.ShortGap | src/common/scheduler.c:1426-1531 | For a gap up to the period, dummies and burst together are every frame of the gap |
| UplinkScheduler.LongGap | src/common/scheduler.c:1456-1465 | A longer gap hides at least one frame of the channel, and only the received burst is delivered |
| UplinkScheduler.StreamIsComplete | src/common/scheduler.c:1426-1627 | Over a run from activation on, the handler sees every frame of the channel from the first burst to the last, each once, in order and with its block position, if and only if no gap is longer than the period |
| UplinkScheduler.StreamKeepsUp | src/common/scheduler.c:1426-1627 | In every run the delivered stream is never longer than the complete one, and as long only if it is equal |
| UplinkScheduler.ReceivedAreKept | src/common/scheduler.c:1559-1627 | The bursts that are not dummies are the received ones, all of them and in order |
| DownlinkQueue.DlQueue.DequeuePrim | src/common/scheduler.c:685-750 | At the head of the queue a mistyped primitive is freed and nothing returned, one up to 100 frames ahead stays, one further off is late, and one that is due goes: a speech frame is returned exactly to the main link of its channel, data exactly to the link that the two high bits of its identifier name |
| DownlinkQueue.MatchesExactlyWhen | src/common/scheduler.c:727-734 | Which primitives are for a channel, by channel number and link |
| DownlinkQueue.HeadDecides | src/common/scheduler.c:685-750 | What the specified dequeue does with each kind of head, and that behind late ones it goes on |
| DownlinkQueue.DlQueue.Filter | src/common/scheduler.c:1030-1058 | Removes the primitives of one channel and leaves all others in order |
| DownlinkQueue.Without | src/common/scheduler.c:1030-1058 | A primitive is kept by the filter if and only if it belongs to another channel |
| DownlinkQueue.FilteredExactlyWhen | src/common/scheduler.c:1035-1054 | Data go if channel and whole link identifier agree, speech frames if the channel agrees and the main link is filtered |
| DownlinkQueue.Distance | src/common/scheduler.c:709-725 | At a call for the frame of the last one or a later one within the reach of modular time, a primitive is classified late, due or early exactly as in absolute time |
| DownlinkQueue.DequeueIsLookup | src/common/scheduler.c:685-750 | On a queue in due order each dequeue by wrapping frame numbers, also a repeated one at a frame, is the lookup in absolute time of the first primitive still queued for that frame |
| DownlinkQueue.EveryCallGetsItsPrimitive | src/common/scheduler.c:685-750 | Over any run of arrivals in due order and calls, any number of them at one frame, each call is given the first primitive still waiting for its frame, as if nothing else ever left the queue and frame numbers never wrapped |
| DownlinkQueue.AnswersByFrame | src/common/scheduler.c:685-750 | Seen frame by frame: the j-th call at a frame takes the j-th primitive due then, whatever happens at other frames in between |
| DownlinkQueue.CallsTakeInOrder | src/common/scheduler.c:685-750 | So it is in every run of the code: the j-th call at a frame takes the j-th primitive due then, by order of arrival, and is given it if and only if it is for the channel asked for |
| DownlinkQueue.AheadIsInAdvance | src/common/scheduler.c:949-979 | Primitives that arrive for frames not called for yet, as those requested ahead do, have all arrived when the first call for their frame comes |
| DownlinkQueue.SentExactlyWhen | src/common/scheduler.c:685-750 | A primitive is sent if and only if there are more calls at its frame than primitives due then that arrived before it, and the call that reaches it asks for its channel |
| DownlinkQueue.TrafficChannelGetsBoth | src/osmo-bts-trx/sched_lchan_tchf.c:353-355 | With a speech frame and a FACCH block of its channel number due, the two calls of a traffic channel give it both, in the order they came |
| DownlinkQueue.DlQueue.TchDlDequeue | src/osmo-bts-trx/sched_lchan_tchf.c:343-380 | Two dequeues; one primitive of each kind is used, a second of the same kind is freed |
| DownlinkQueue.PairsByKind | src/osmo-bts-trx/sched_lchan_tchf.c:354-380 | Which of two fetched primitives is used as speech frame, which as FACCH block, and which is freed or lost |
| DownlinkQueue.LostExactlyWhen | src/osmo-bts-trx/sched_lchan_tchf.c:353-380 | With a speech frame and a FACCH block for the channel due, both are used; a primitive is fetched and neither used nor freed if and only if the first one due is for another channel and the second is not |
| DownlinkQueue.PrimForIsFirstDue | src/common/scheduler.c:691-739 | A call looks at the first primitive waiting for its frame and at no other: it is given that one if it is for this channel and else nothing, and that one is gone either way |
| DownlinkQueue.NothingIsLost | src/common/scheduler.c:685-750 | Freed, returned and remaining primitives are together the queue, in order |
| DownlinkQueue.OnlyUselessOnesAreFreed | src/common/scheduler.c:703-747 | Only late, mistyped or mismatched primitives are freed, and what is returned is for this frame and channel |
| FacchRepetition.FacchRepeater.DequeueFacch | src/common/l1sap.c:970-1014 | A slot of eight frames of age or more is sent and emptied, the first one first; otherwise what was fetched is sent, and kept in the first free slot exactly if it may be repeated |
| FacchRepetition.RepeatableExactlyWhen | src/common/l1sap.c:992-998 | A frame is kept for repetition if the mobile takes every frame or the C/R bit of the address is set |
| FacchRepetition.NextSettles | src/common/l1sap.c:970-1014 | With requests 4 frames or more apart, every request keeps repetitions in step with originals and both slots young enough |
| FacchRepetition.RepeatsFollowOriginals | src/common/l1sap.c:970-1014 | Over any such run, the repetitions are the originals in order, each at least 8 frames later, and the rest sits in the slots |
| FacchRepetition.RepeatedWithinTwoRequests | src/common/l1sap.c:970-1014 | Every frame kept has been repeated two requests later |
| FacchRepetition.RunIsReplay | src/common/l1sap.c:970-1014 | The run on wrapping frame numbers sends what the run in absolute time sends, and the assertion is unreachable |
| FacchRepetition.AgeIsModular | src/common/l1sap.c:977-984 | The age of a stored frame is right across the wrap of the hyperframe |
| FacchRepetition.ThreeFramesApartOverflow | src/common/l1sap.c:1000-1010 | Requests three frames apart do reach the assertion |
| FacchRepetition.GapSufficesExactlyWhen | src/common/l1sap.c:970-1014 | A distance between requests keeps every run away from the assertion if and only if it is four frames or more |
| SidReshaper.Reshaper.Input | src/common/l1sap.c:1286-1380 | The input stage caches a SID, at most the size of its buffer, and speech opens a new window |
| SidReshaper.Reshaper.Output | src/common/l1sap.c:1400-1490 | The output stage replays the cache, suppresses a second SID and notes a SID that FACCH did not steal |
| SidReshaper.Reshaper.TchRts | src/common/l1sap.c:1493-1562 | One TCH frame through both stages is one step of the specification |
| SidReshaper.PositionsRecur | src/common/l1sap.c:1255-1284 | Mandatory SID positions come every 104 frames on full rate and every 52 on half rate channels, across the end of the hyperframe as well |
| SidReshaper.CacheHolds33 | src/common/l1sap.c:1340-1370 | The cache holds at most the first 33 octets of a SID |
| SidReshaper.CacheIsLastSid | src/common/l1sap.c:1286-1490 | After any run the cache is the last SID that came from RTP and its age the frames since, up to the limit |
| SidReshaper.FlagMeansSent | src/common/l1sap.c:1400-1490 | The flag says that a SID went on air since the last window start, over any run |
| SidReshaper.AvailableIsCache | src/common/l1sap.c:1446-1470 | A SID is in hand exactly if RTP delivers one, or delivered one at most 47 frames ago and nothing good since |
| SidReshaper.SidGoesOutExactlyWhenDue | src/common/l1sap.c:1255-1490 | A SID goes on air at a frame if and only if the frame is not stolen, a SID is in hand and the window has not had one |
| SidReshaper.AtMostOneSidPerWindow | src/common/l1sap.c:1255-1490 | Between two SIDs on air lies a mandatory SID position or speech |
| SidReshaper.OutputIsFaithful | src/common/l1sap.c:1400-1490 | Speech always passes unaltered; a SID that is sent is the current one or the last one cached |
| PowerControl.MeasProc.DoPfEwma | src/common/power_control.c:76-91 | One sample updates count and scaled average as specified and returns the rounded average |
| PowerControl.RoundedRange | src/common/power_control.c:76-91 | Which scaled averages round to a value, below it and above it, with truncation toward zero |
| PowerControl.NeverOvershoots | src/common/power_control.c:76-91 | A sample moves the average towards itself and never past itself |
| PowerControl.RunHolds | src/common/power_control.c:76-91 | With a maximum of at least zero or a factor of at least 50 %, every output of every run lies within the range of the samples |
| PowerControl.NegativeStartRoundsUp | src/common/power_control.c:76-91 | Two equal negative samples and a factor below 50 % give an average above both |
| PowerControl.RangeIsKeptExactlyWhen | src/common/power_control.c:76-91 | All runs stay in the range of their samples if and only if the maximum is not negative or the factor is at least 50 % |
| PowerControl.SettlingIsMonotone | src/common/power_control.c:76-91 | Under a constant input the average approaches monotonically and stays once it is there |
| PowerControl.SettlingProgress | src/common/power_control.c:76-91 | Every sample that misses takes at least one unit off the scaled distance |
| PowerControl.ConstantInputIsReached | src/common/power_control.c:76-91 | A constant input is reached after a number of samples bounded by the scaled distance |
| PowerControl.DeltaHeadsForTarget | src/common/power_control.c:116-138 | The level step leads towards the middle of the window, not past it, within the step sizes, and is zero exactly inside the window |
| PowerControl.BsPowerControl.SkipBlock | src/common/power_control.c:141-155 | A report is skipped exactly while the counter is positive, and an effective one restarts it |
| PowerControl.BsPowerControl.AvgAlgo | src/common/power_control.c:97-113 | A sample goes through the configured averaging, or unchanged |
| PowerControl.AveragedFits | src/common/power_control.c:97-113 | The average lies within the values received, so keeping it in an octet loses nothing |
| PowerControl.BsPowerControl.PowerCtrl | src/common/power_control.c:316-403 | Bad averaged quality takes a step of attenuation off, good quality puts one on, and otherwise the level moves it towards the target by at most a step, all within zero and the maximum; nothing without parameters or on a skipped report, and a change is reported exactly if there is one |
| PowerControl.ReportMoves | src/common/power_control.c:316-403 | The same for the specified report, with averages and skip counter afterwards |
| PowerControl.EffectivesRoundUp | src/common/power_control.c:141-155 | Of n reports from an effective one on, n over twice the interval, rounded up, are effective; all with interval zero |
| PowerControl.BadQualityTakesAllOff | src/common/power_control.c:352-354 | While quality stays bad every effective report takes a step off, and none is left exactly when they are as many as the steps that the attenuation has, rounded up |
| PowerControl.GoodQualityPutsAllOn | src/common/power_control.c:355-357 | While quality stays good every effective report puts a step on, and the maximum is reached likewise |
| PowerControl.ReportsMoveByOneStep | src/common/power_control.c:316-403 | Over any run of reports the attenuation never exceeds its maximum and moves by no more than the configured steps |
| PowerControl.EffectiveIsReport | src/common/power_control.c:316-403 | The step of the closed loop is a report that is not skipped, without averaging |
| PowerControl.LoopApproaches | src/common/power_control.c:316-403 | Every effective report brings the received level nearer to the target unless the loop is at rest, and then nothing changes |
| PowerControl.LoopComesToRest | src/common/power_control.c:316-403 | On a constant path the loop comes to rest: in the window, or with the attenuation exhausted |
| PowerControl.SkippedReports | src/common/power_control.c:141-155 | Between two effective reports all reports of the interval leave the attenuation alone |
| LoopEnergy.PotentialGain | src/common/power_control.c:76-138 | The work of the pushes stored in the average grows by no more than the last push times the way the filter went, rounding included |
| LoopEnergy.BalanceFalls | src/common/power_control.c:316-403 | Distance from the target, lag of the filter and that work balance: their sum falls by the square of what the rounded average moves |
| LoopEnergy.EnergyFalls | src/common/power_control.c:316-403 | With the target within reach no effective report raises the energy, and every one that changes the rounded average lowers it, whatever the steps, the window and the smoothing factor |
| LoopEnergy.RankFalls | src/common/power_control.c:316-403 | Every effective report lowers energy or the time left at the same average, unless the level has been reached inside the window |
| LoopEnergy.FirstRank | src/common/power_control.c:85-88 | From its first sample on fewer effective reports than the 32-bit sample counter can take lead there |
| PowerLoop.SwingStep | src/common/power_control.c:316-403 | The same for a report of the loop as the code runs it, with C division and clamps |
| PowerLoop.SwingsOut | src/common/power_control.c:316-403 | Finitely many reports lead to rest or to a wrap of the sample counter, and to rest if the counter leaves room for them |
| PowerLoop.FreshSwingsOut | src/common/power_control.c:316-403 | From a fresh filter they lead to rest |
| PowerLoop.ReportKeepsCourse | src/common/power_control.c:316-403 | Where no level is beyond the window, or the steps in that direction are small for it, the attenuation only ever moves one way |
| PowerLoop.ClimbStep | src/common/power_control.c:316-403 | From below, with a small step up whatever the one down, an effective report lowers the attenuation, or settles the filter further, or the loop is at rest; the window is not passed |
| PowerLoop.DescendStep | src/common/power_control.c:316-403 | The same from above with a small step down, whatever the one up |
| PowerLoop.CourseIsKept | src/common/power_control.c:316-403 | Over any number of reports the level then neither passes the window nor turns back |
| PowerLoop.DefaultsPassTheWindow | src/common/power_control.c:407-438 | With the default parameters, whose step up is wide, five reports lead from below the window to above it |
| PowerLoop.RestIsForGood | src/common/power_control.c:316-403 | Once at rest, no number of further reports changes the attenuation, not even when the sample counter wraps |
| PowerLoop.FilteredLoopComesToRest | src/common/power_control.c:316-403 | On a constant path the loop with averaging comes to rest for good, in the window or with the attenuation exhausted, whatever its steps, window, interval, smoothing factor, starting level and average |
| PowerRamp.PowerRamper.TimerCb | src/common/tx_power.c:163-186 | The expired step timer requests the target less the attenuation |
| PowerRamp.PowerRamper.RampDoStep | src/common/tx_power.c:209-240 | A step shrinks the attenuation, or completes the ramp when there is none left |
| PowerRamp.PowerRamper.ChangeCompl | src/common/tx_power.c:190-207 | A confirmation takes the next step |
| PowerRamp.PowerRamper.RampStart | src/common/tx_power.c:242-302 | A start is refused, without any effect, exactly if it is above nominal power and not bypassed, and otherwise jumps or begins to step as specified |
| PowerRamp.StartDecides | src/common/tx_power.c:242-302 | Which starts are refused, which jump to the target at once, and which only arm the timer |
| PowerRamp.RunIsSound | src/common/tx_power.c:163-302 | Under any interleaving of starts, timeouts and confirmations the attenuation is what the steps taken have left of the way, and only the max-initial shortcut is ever ahead of the power on air |
| PowerRamp.NeverOvershootsExactlyWhen | src/common/tx_power.c:163-302 | Over any interleaving, every requested power lies between the one requested before and the target, wherever the timer runs out, if and only if no start turns a ramp around below a shortcut not requested yet |
| PowerRamp.TimerOvershootsExactlyWhen | src/common/tx_power.c:163-302 | A timer request overshoots if and only if the power on air and the target are both below the level that the steps have reached; a start that requests something requests its target |
| PowerRamp.ShortcutOvershoots | src/common/tx_power.c:277-299 | A run without any late confirmation in which the power rises above both its last value and the target |
| PowerRamp.RequestSize | src/common/tx_power.c:163-240 | Over any interleaving, the timer moves the power by as many steps as were taken since the last start or request, or all the way |
| PowerRamp.StepwiseExactlyWhen | src/common/tx_power.c:163-302 | Over any interleaving, every change is one step at most if and only if no confirmation comes while a step waits for the timer with more than one to go |
| PowerRamp.CompletesOnceExactlyWhen | src/common/tx_power.c:209-302 | However timeouts and confirmations follow a start, completion is reported once for every confirmation from the last change on; exactly once if and only if there are as many confirmations as changes |
| PowerRamp.LockstepIsStaircase | src/common/tx_power.c:163-240 | With one confirmation per change the requested powers are the staircase, and completion is reported once |
| PowerRamp.RampReachesTarget | src/common/tx_power.c:242-302 | Every accepted ramp ends at its target with no attenuation left and completes exactly once |
| PowerRamp.StaircaseShape | src/common/tx_power.c:209-240 | The staircase is monotone, no step exceeds the step size, and it has as many steps as the distance needs |
| PowerRamp.StaleConfirmDoublesTheStep | src/common/tx_power.c:190-240 | A run in which a confirmation out of turn makes a change of two steps |
| Measurement.CompletesOncePerPeriod | src/common/measurement.c:225-298 | Every reporting period of every channel has exactly one frame at which it completes |
| Measurement.Lchan.NewUlMeas | src/common/measurement.c:322-358 | A sample is appended, marked as SUB where its frame is one, or refused when the buffer is full |
| Measurement.Lchan.Counted | src/common/measurement.c:532-549 | Indices start at the oldest sample that counts |
| Measurement.Lchan.AddUp | src/common/measurement.c:607-670 | The sums are those of the newest samples, and missing blocks are replaced, as SUB ones as long as those are short |
| Measurement.SumOfOne | src/common/measurement.c:607-640 | Every sample counts in the FULL sums, and in the SUB sums exactly if it belongs to the SUB set |
| Measurement.SumsAddUp | src/common/measurement.c:607-640 | The sums of two stretches of samples add up, in every field |
| Measurement.SubSumsAreOfSubSet | src/common/measurement.c:607-640 | The SUB sums are the FULL sums of the SUB samples |
| Measurement.BlocksFillPeriod | src/common/measurement.c:397-425 | The number of samples expected is the number of blocks that the frames of a period have room for |
| Measurement.SubSetOfPeriod | src/common/measurement.c:427-495 | The number of SUB samples expected is that of SACCH and SID blocks, of all blocks for signalling, and unknown for AMR |
| Measurement.SubstitutedFillsUp | src/common/measurement.c:607-670 | Missing blocks count as SUB up to the number expected and no further |
| Measurement.ReportOfEqual | src/common/measurement.c:672-746 | Equal samples average to themselves in every result, missing ones to the dummy values, and without samples the rest keeps its values |
| Measurement.Lchan.Spread | src/common/measurement.c:521-564 | One pass finds minimum, maximum and the sum of squared distances from the mean |
| Measurement.Lchan.ComputeExtended | src/common/measurement.c:497-573 | Minimum, maximum and standard deviation of the timing offset of the samples that count |
| Measurement.Lchan.Divide | src/common/measurement.c:703-746 | The averages, each in its width, without a division by zero |
| Measurement.Lchan.CheckCompute | src/common/measurement.c:575-764 | Exactly at the end of a period: the averages over the newest samples, and a fresh start |
| Measurement.MeanIsBetween | src/common/measurement.c:711-717 | The truncated mean of the timing offsets lies between the smallest and the largest |
| Measurement.SquareFits | src/common/measurement.c:551-557 | The squared distance of two 16-bit offsets fits in 32 bits |
| Measurement.SumSquaresBound | src/common/measurement.c:544-564 | The sum of squares is at most the squared spread for each sample |
| Measurement.ISqrtIsRoot | src/common/measurement.c:570-571 | The integer square root is the largest whose square does not exceed the argument |
| Measurement.DeviationWithinSpread | src/common/measurement.c:565-572 | The variance fits in 32 bits, and the standard deviation never exceeds the spread |
| Measurement.SumsFit | src/common/measurement.c:578-670 | No accumulator overflows its 32 bits |
| MobileAllocation.Filler.CountOne | src/common/pcu_sock.c:152-167 | The length of the map is an 8-bit counter |
| MobileAllocation.Filler.CellAllocation | src/common/pcu_sock.c:138-153 | The scratch map holds the frequencies of the provisioned transceivers |
| MobileAllocation.Filler.SlotAllocation | src/common/pcu_sock.c:155-169 | The hopping list is marked, and frequencies missing in the Cell Allocation are added and counted |
| MobileAllocation.Filler.RankBits | src/common/pcu_sock.c:171-188 | Walking the Cell Allocation upwards and the map downwards encodes the hopping set by rank |
| MobileAllocation.Filler.FillFhp | src/common/pcu_sock.c:124-189 | The map of a timeslot encodes its hopping set by rank in the Cell Allocation |
| MobileAllocation.ReachOne | src/common/pcu_sock.c:178-185 | Each frequency of the walk sets the bit of its own rank and no other |
| MobileAllocation.ReachZero | src/common/pcu_sock.c:187-188 | ARFCN 0 takes the last rank |
| MobileAllocation.PlacesAreARanking | src/common/pcu_sock.c:171-188 | Frequencies have distinct ranks below the size of the Cell Allocation |
| MobileAllocation.DecodesExactlyWhen | src/common/pcu_sock.c:124-189 | The map decodes back to the hopping set if and only if no hopping frequency ranks 64 or higher |
| MobileAllocation.SmallCellsDecode | src/common/pcu_sock.c:124-189 | With at most 64 frequencies in the Cell Allocation the map always decodes back |
| MobileAllocation.LengthIsCellSizeExactlyWhen | src/common/pcu_sock.c:144-169 | The number of entries counted is the size of the Cell Allocation if and only if the transceivers have distinct frequencies and all ARFCNs are below 1024; otherwise it is larger |
| MobileAllocation.OctetLengthExactlyWhen | src/common/pcu_sock.c:144-169 | The length as sent, an octet, is the size of the Cell Allocation if and only if that is below 256 and the entries counted in excess are a multiple of 256 |
| Agch.ImmAss.Store | src/common/bts.c:515-561 | Up to four requests are stored and the first one fills the places left |
| Agch.ImmAss.Extract | src/common/bts.c:563-594 | The requests of a reject without repetitions |
| Agch.ImmAss.TryMerge | src/common/bts.c:596-639 | With fewer than four requests in the first reject and at most four together, the first one takes all and the second one is used up; with more, the first is filled up to four and the second keeps the rest; a full first one takes nothing; other messages are left alone |
| Agch.MergeFillsUp | src/common/bts.c:596-639 | The same for the specified merge, and every entry that either holds afterwards is one that came in |
| Agch.ExtractedKeepsRefs | src/common/bts.c:563-594 | Extraction finds every request reference once, and no request that is not there |
| Agch.ExtractInvertsStore | src/common/bts.c:515-594 | One to four distinct requests survive being stored and extracted |
| Agch.MergeIsLossless | src/common/bts.c:596-639 | The references in both messages are the same before and after a merge, whether the second one is used up or spilled into, and no request is invented |
| Agch.AgchQueue.MergeIntoLast | src/common/bts.c:657-667 | Only the last queued message and the new one change |
| Agch.AgchQueue.Enqueue | src/common/bts.c:641-673 | Accepts a message exactly while the queue is not beyond its hard limit, queues what is left of it after merging, and does not grow if all its requests fit into the last queued reject |
| Agch.EnqueueGrowsExactlyWhen | src/common/bts.c:641-673 | The queue grows by one exactly unless the message is refused or its requests fit into the last queued reject, which then holds them |
| Agch.AgchQueue.Dequeue | src/common/bts.c:675-683 | Hands out the head, if there is one |
| Agch.AgchQueue.Compact | src/common/bts.c:691-739 | Does nothing below the threshold, and otherwise drops from the head as long as the draw is below the probability at the length then |
| Agch.LevelsArePercent | src/common/bts.c:695-715 | Offset and threshold are percentages of the maximum length, rounded down, and a missing maximum counts as one |
| Agch.DropLevelIsLinear | src/common/bts.c:709-728 | Between the levels the probability of a drop rises in proportion to the length, up to two roundings |
| Agch.DropsExactlyWhile | src/common/bts.c:719-737 | How many messages go for a given sequence of draws |
| Agch.NoDropBelowOffset | src/common/bts.c:715-728 | Nothing is dropped at or below the low-water offset |
| Agch.CompactionStops | src/common/bts.c:691-739 | For all random numbers compaction stops at the offset at the latest, and only when the queue is empty or dropping is no longer certain |
| Agch.SteepCompactionEndsAtOffset | src/common/bts.c:715-737 | Without a ramp between the levels compaction ends exactly at the offset |
| Agch.EnqueueAccounts | src/common/bts.c:641-673 | Enqueueing adds the references and other messages of the new message to the queue, in order |
| Agch.ApplyIsOperation | src/common/bts.c:641-739 | The operations of a run do to the queue what enqueueing, dequeueing and compaction do, and count what they accept and let go |
| Agch.NothingAcceptedIsLost | src/common/bts.c:641-739 | Every operation keeps each accepted reference either queued or gone with its message, and the length at most 101 |
| Agch.RunsLoseNothing | src/common/bts.c:641-739 | So does every run of operations, for all random numbers |
| PagingGroup.GroupOfBlock | src/common/paging.c:170-198 | All four frames of a paging block serve the same group |
| PagingGroup.NoBlockExactlyWhen | src/common/paging.c:150-167 | The frames of a multiframe in no CCCH block are the first six and two in ten |
| PagingGroup.NoGroupExactlyWhen | src/common/paging.c:186-198 | A frame serves no group exactly if it is one of them or its block is reserved for access grants |
| PagingGroup.GroupInRange | src/common/paging.c:186-198 | Paging blocks lead to existing groups, never more than 81 |
| PagingGroup.EveryGroupServedOnce | src/common/paging.c:170-198 | In a paging cycle whose positions run through, the four frames of a block serve a group if and only if it is the one block assigned to that group |
| PagingGroup.ServedOnceExactlyWhen | src/common/paging.c:170-198 | From any multiframe on, one paging cycle serves every group exactly once if and only if it does not cross the end of the hyperframe or its length divides the hyperframe |
| PagingGroup.WrapIsClean | src/common/paging.c:195 | The lengths that divide it are two, four and eight multiframes |
| PagingGroup.WrapServesTwice | src/common/paging.c:186-198 | With three multiframes the last one of the hyperframe and the first serve the same group |
| PagingGroup.VisitedExactlyWhen | src/common/paging.c:170-198 | Some frame of the CCCH leads to the queue of a group if and only if there is that group, with a combined CCCH as well |
| PagingGroup.VisitedInRange | src/common/paging.c:170-198 | No frame of the CCCH leads beyond the groups |
| PagingGroup.OffCcchLeadsBeyond | src/common/paging.c:170-198 | Other frames of a cell with a combined CCCH, which are never asked for, would |
| PagingMessage.BitVec.AppendEtws | src/common/paging.c:336-358 | Writes an ETWS page with its number and length into the space it needs |
| PagingMessage.BitVec.AppendP1 | src/common/paging.c:361-404 | Writes the type 1 rest octets within the room there is |
| PagingMessage.BitVec.AppendP2 | src/common/paging.c:407-425 | Writes the type 2 rest octets |
| PagingMessage.BitVec.AppendP3 | src/common/paging.c:428-447 | Writes the type 3 rest octets |
| PagingMessage.FillType1 | src/common/paging.c:449-487 | A type 1 message with identities of up to eight octets fills the MAC block exactly |
| PagingMessage.FillType2 | src/common/paging.c:489-535 | A type 2 message fills the MAC block exactly |
| PagingMessage.FillType3 | src/common/paging.c:537-586 | A type 3 message fills the MAC block exactly |
| PagingMessage.Type1RoundTrip | src/common/paging.c:449-487 | A mobile reads back the identities and channel needs a type 1 message was packed from |
| PagingMessage.Type2RoundTrip | src/common/paging.c:489-535 | The same for type 2, the third channel need from the rest octets |
| PagingMessage.Type3RoundTrip | src/common/paging.c:537-586 | The same for type 3, two channel needs from the rest octets |
| PagingMessage.ReadBack | src/common/paging.c:407-447 | A channel need written behind an H bit reads back as its two low bits |
| PagingMessage.HeaderFields | src/common/paging.c:449-487 | Pseudo length, message type, normal page mode and the channel needs of the first two identities |
| PagingMessage.RestOfType1 | src/common/paging.c:361-404 | From type 1 rest octets a mobile reads the notification list number, the packet page indications and the additions of release 8, and no priority, group call or other addition |
| PagingMessage.RestOfType2 | src/common/paging.c:407-425 | From those of type 2 the third channel need and the notification list number |
| PagingMessage.RestOfType3 | src/common/paging.c:428-447 | From those of type 3 the third and fourth channel need and the notification list number |
| EtwsPages.EtwsState.Command | src/common/rsl.c:965-989 | After a new notification its next page exists exactly if the page that was due is below the new count |
| EtwsPages.ShorterNotificationIsNotReady | src/common/rsl.c:965-989 | A notification of 30 octets, one page sent and then one of 14 octets: the page that is due does not exist |
| EtwsPages.EtwsState.BuildP1 | src/common/paging.c:628-653 | The page that is due, its number and its length; then the next one in turn |
| EtwsPages.PageCount | src/common/rsl.c:982-985 | As many pages of 14 octets as the notification needs |
| EtwsPages.EveryPageOncePerCycle | src/common/paging.c:628-653 | As many calls in a row as there are pages send every page exactly once, wherever they start |
| EtwsPages.PagesReassemble | src/common/paging.c:628-653 | The pages put together are the notification |
| EtwsReading.PageReadsBack | src/common/paging.c:336-404 | From the rest octets a mobile reads the page, its length and its number modulo 16; the notification identifier reads as zero whatever was toggled |
| EtwsReading.NumReadsBack | src/common/paging.c:336-358 | A number written as bits reads back modulo the power of two that fits |
| EtwsReading.CycleIsComplete | src/common/paging.c:628-653 | One cycle of calls carries every page, wherever it starts |
| EtwsReading.ReassemblesExactlyWhen | src/common/paging.c:336-358 | Whoever has heard every page, in whatever order, puts the notification together if and only if there are at most 15 |
| Paging.SortTmsiImsi | src/common/paging.c:608-626 | Bubble sort puts TMSIs first and keeps the order otherwise |
| Paging.ThoseSizes | src/common/paging.c:608-626 | Sorting is a permutation |
| Paging.NoImsiInTmsiSlot | src/common/paging.c:742-780 | No IMSI lands in a TMSI slot of type 2 or type 3 |
| Paging.SentIsSoMany | src/common/paging.c:742-813 | Of the first four records a block sends all four if none is an IMSI, three of three or four if at most one is, and else two at most |
| Paging.OtherIdentityIsBlank | src/common/paging.c:489-535 | Three identities that are neither IMSI nor TMSI go out together, and the first two are read as TMSI zero |
| Paging.NothingIsLost | src/common/paging.c:699-829 | Every record of a queue is still there after a block, or is the MAC block sent, or was sent and had expired |
| Paging.CountAfter | src/common/paging.c:699-829 | The number of records, in all or of one identity, changes by exactly those removed |
| Paging.AfterKeeps | src/common/paging.c:699-829 | No identity is queued twice after a block if none was before |
| Paging.HeadIsSentExactlyWhen | src/common/paging.c:265-267 | A new record goes out with the next block if and only if there is no MAC block among the first four, and it is a TMSI or not in competition with two or three of them |
| Paging.BlockShrinksQueue | src/common/paging.c:815-829 | With expired records every block takes at least one off the queue |
| Paging.RunLosesNothing | src/common/paging.c:699-829 | Over any number of blocks what is removed and what is left is what was there |
| Paging.QueueDrains | src/common/paging.c:699-829 | When its records have expired, a queue without arrivals is empty after as many blocks as it has records, each record sent exactly once |
| Paging.OvertakenForeverExactlyWhen | src/common/paging.c:699-829 | IMSIs ahead of unexpired TMSIs are sent by no block of any run if and only if there are at most two of them and four records or more in all |
| Paging.OvertakenOnce | src/common/paging.c:742-829 | Such a block sends the TMSIs and puts the IMSIs back at the head |
| Paging.PriorityFollowsLastOutside | src/common/paging.c:90-115 | Over any sequence of fill levels the priority of circuit-switched paging is decided by the last one outside the band of the thresholds |
| Paging.SwitchesAreApart | src/common/paging.c:90-115 | Two switches in opposite directions are as many operations apart as it takes to carry the fill level across the whole band |
| Paging.StaysOnExactlyWhen | src/common/paging.c:103-115 | The priority stays on over a run if and only if no fill level is below the lower threshold |
| Paging.LastsForeverExactlyWhen | src/common/paging.c:103-115 | No sequence of fill levels ever ends the priority if and only if at most one record is allowed |
| PagingQueues.Find | src/common/paging.c:234-246 | Finds the queued record of an identity, comparing length and octets, if there is one |
| PagingQueues.SameIsPadded | src/common/paging.c:238-240 | That comparison is equality of the stored identities |
| PagingQueues.RefreshOne | src/common/paging.c:241-244 | Refreshing the first match refreshes all of them, and nothing but the expiry |
| PagingQueues.ServedQueueExists | src/common/paging.c:186-198 | No frame leads outside the array of 81 queues, not even one without a paging block |
| PagingQueues.Collect | src/common/paging.c:707-724 | Takes up to four records off a queue, stops at a MAC block and counts the IMSIs |
| PagingQueues.Pack | src/common/paging.c:745-813 | The message chosen fills the MAC block, and a mobile reads from it exactly the records sent |
| PagingQueues.PutBack | src/common/paging.c:728-730 | Records go back to the head, which reverses them |
| PagingQueues.Requeue | src/common/paging.c:815-829 | Expired records are dropped and counted, the others go to the tail |
| PagingQueues.MakeBlock | src/common/paging.c:699-829 | The next block of a queue carries what it should, and the queue afterwards is the specified one |
| PagingQueues.MacGoesOut | src/common/paging.c:726-740 | A MAC block among the first four records goes out with its 23 octets, and its identifier is confirmed exactly if that is asked for |
| PagingQueues.AnsweredExactlyWhen | src/common/paging.c:489-586 | A mobile answers a request by TMSI if and only if a record sent is for it, or it has TMSI zero and a record that is no TMSI was sent in a TMSI slot; by IMSI if and only if a record sent is for it |
| PagingQueues.PagingState.constructor | src/common/paging.c:861-885 | All queues and the counter start empty |
| PagingQueues.PagingState.CheckCongestion | src/common/paging.c:103-115 | The priority of circuit-switched paging follows the fill level with hysteresis |
| PagingQueues.PagingState.AddIdentity | src/common/paging.c:209-271 | Each refusal for its reason and in the order of the code, for want of space exactly if the queues that frames lead to hold what the others leave of the limit; a known identity is refreshed, a new one goes to the head; the counter stays the number of records and within its limit, and queues that no frame of the CCCH leads to keep what they hold |
| PagingQueues.PagingState.AddMacblock | src/common/paging.c:296-331 | A MAC block is queued at the head and not counted, or dropped while circuit-switched paging has priority; queues that no frame of the CCCH leads to keep what they hold |
| PagingQueues.PagingState.GenMsg | src/common/paging.c:656-833 | Every frame gives the block it should: none, the MAC block among the first four records unaltered and confirmed if that is asked for, ETWS page, empty or request for exactly the records sent; the counter stays the number of records, and a frame of the CCCH leaves queues that none leads to alone |
| PagingQueues.PagingState.SiUpdate | src/common/paging.c:835-844 | New channel parameters leave queues and counter alone |
| PagingQueues.UnservedTakeSpace | src/common/paging.c:227-232 | All records are those in queues that frames lead to and those in the others |
| PagingQueues.PagingState.RunStuck | src/common/paging.c:209-331 | Over any run of pages, MAC blocks and frames of the CCCH, records in queues that no such frame leads to stay, the other queues together never hold more than what they leave of the limit, and no page is accepted if they leave nothing |
| PagingQueues.PagingState.Reset | src/common/paging.c:895-913 | Everything is dropped and the counter is zero, although it wraps in between |
| Cbch.PayloadOfBlocks | src/common/cbch.c:97-157 | The payloads of the first blocks are a prefix of the message |
| Cbch.BlocksReassemble | src/common/cbch.c:97-157 | The blocks of a message reassemble to what its segments cover, and exactly the last one says so |
| Cbch.BlockFields | src/common/cbch.c:97-157 | On air a block has its number, 8 if it is the first one of a schedule message, the last-block bit exactly at the end and its 22 octets of the message; without a message 15 and filling |
| Cbch.PaddedKeeps | src/common/cbch.c:176-212 | A message is filled up to 88 octets behind its own |
| Cbch.NumSegsIsTwoBits | src/common/cbch.c:159-207 | The number of segments is the two-bit field of the command, four for zero |
| Cbch.TbOfFrame | src/common/cbch.c:287-295 | Eight multiframes of 51 frames make a cycle |
| Cbch.CbchState.QueueMsg | src/common/cbch.c:214-230 | A message is queued last, or freed if the queue is full |
| Cbch.CbchState.ReplaceDefault | src/common/cbch.c:231-244 | A default message on air is cut off before it is freed, so nothing dangles |
| Cbch.CbchState.ProcessCmd | src/common/cbch.c:176-251 | Every command leaves each live message owned exactly once, padded and cut into its segments |
| Cbch.CbchState.SelectNext | src/common/cbch.c:253-283 | The head of the queue, else the default message |
| Cbch.CbchState.GetBlock | src/common/cbch.c:97-157 | The block due, and the message freed with its last block and only then |
| Cbch.CbchState.CbchGet | src/common/cbch.c:287-320 | The block, its fields, the message on air and the queue after every multiframe. As long as none is missed while a message is on air, messages go out first in first out, each one completely and once, and none leaks; a message leaks exactly if it is still on air when the next cycle starts |
| Cbch.Broadcaster.Get | src/common/cbch.c:287-320 | A frame is served by the basic or the extended channel and leaves the other alone; from any multiframe that a cell starts with, as long as none is missed after it, both are served in order and leak nothing |
| Cbch.MissedCycleLeaks | src/common/cbch.c:287-320 | A message of four blocks, its first multiframe, and then the first one of the next cycle: the message leaks |
| Cbch.CbchState.FreeQueue | src/common/cbch.c:322-336 | Every queued message is freed once |
| Cbch.CbchState.Reset | src/common/cbch.c:322-336 | Everything that is reachable is freed, and freed once |
| Osmux.CidPool.GetLocalCid | src/common/osmux.c:50-86 | Reserves a circuit that was free, or fails exactly if all circuits it looks at are taken |
| Osmux.CidPool.PutLocalCid | src/common/osmux.c:90-94 | Frees exactly that circuit |
| Osmux.EverythingScannedOnlyFromZero | src/common/osmux.c:56-74 | All circuits are looked at if and only if the search starts at circuit 0 |
| Osmux.FailureIsExhaustionExactlyWhen | src/common/osmux.c:50-86 | Failure means that no circuit is free if and only if the search starts at circuit 0 |
| Osmux.OsmuxState.FindGet | src/common/osmux.c:125-141 | Takes a reference on the handle of an address and on no other |
| Osmux.OsmuxState.Put | src/common/osmux.c:144-162 | Drops a reference and the handle with its last one |
| Osmux.OsmuxState.Connect | src/common/osmux.c:475-501 | Handles stay distinct by address and count their users, also if opening the circuit fails |
| Osmux.OsmuxState.Release | src/common/osmux.c:442-468 | A handle is freed exactly with its last user |
| Osmux.Channels.Init | src/common/osmux.c:416-440 | A channel is set up if and only if its local address parses and a circuit that is looked at is free, and gets a circuit no other one has; a bad address strands exactly one such circuit |
| Osmux.Channels.Connect | src/common/osmux.c:475-501 | Connecting leaves circuits and other channels alone |
| Osmux.Channels.Release | src/common/osmux.c:442-468 | A released channel gives back its circuit and its handle; the bit map is always exactly the circuits held and those stranded |
| SysInfo.BcchScheduler.SysinfoGet | src/common/sysinfo.c:43-152 | What each TC sends, and whose turn it is at TC = 4 |
| SysInfo.SharesExactlyWhen | src/common/sysinfo.c:86-108 | Which messages share the occasions with TC = 4: 2ter if 2bis has TC = 5, 2quater if either has it, 13 with the packet control unit, and 9 |
| SysInfo.BcchScheduler.Si2qIncIndex | src/common/sysinfo.c:33-40 | The instances of SI 2quater take turns |
| SysInfo.EveryTurnOnce | src/common/sysinfo.c:33-40 | Of any n turns in a row exactly one belongs to each of n messages |
| SysInfo.SentWithinFour | src/common/sysinfo.c:89-122 | Every message that shares TC = 4 is sent at least once in any four consecutive occasions |
| SysInfo.SufficesExactlyWhen | src/common/sysinfo.c:101-121 | SI 13 is sent in every stretch of so many occasions with the packet control unit connected, whatever came before, if and only if the stretch is as long as the messages sharing the occasions are many |
| SysInfo.ShortStretchesStarve | src/common/sysinfo.c:101-121 | Stretches shorter by one with single misses between them can starve SI 13 for ever, in every cell with SI 9 |
| SysInfo.Sacch.SacchGet | src/common/lchan.c:258-271 | The next valid type behind the last one sent, if any is valid |
| SysInfo.RoundRotates | src/common/lchan.c:258-271 | After a call the round goes on where it was, with the type just sent at its end |
| SysInfo.EveryTypeOncePerRound | src/common/lchan.c:258-271 | As many calls as there are valid types send each valid type, and each just once |

## Left out

- UplinkScheduler.StreamIsComplete: runs of fewer than 2^32 bursts, because the count of processed frames then wraps to zero and the next gap is taken for a first burst.
- UplinkScheduler.Timeslot.UlBurst: no redirection of bursts to a shadow timeslot, no noise measurement of inactive channels and no deciphering.
- DownlinkQueue.EveryCallGetsItsPrimitive: queues in due order, nothing more than 100 frames ahead of a call, no pause of a hyperframe between calls, and no primitives of a type the scheduler does not transmit; NothingIsLost and OnlyUselessOnesAreFreed hold without that.
- DownlinkQueue.CallsTakeInOrder: the same, and all primitives of the frame have arrived before the first call for it.
- DownlinkQueue.SentExactlyWhen: the same as CallsTakeInOrder.
- DownlinkQueue.TrafficChannelGetsBoth: the same as CallsTakeInOrder.
- DownlinkQueue.Distance: calls do not go back in time nor pause for a hyperframe, and nothing is more than 100 frames ahead.
- DownlinkQueue.DequeueIsLookup: the same reach of modular time, on a queue in due order.
- DownlinkQueue.LostExactlyWhen: the same as DequeueIsLookup.
- DownlinkQueue.DlQueue.TchDlDequeue: the checks of length and speech codec that follow in the source are not part of the model.
- PowerControl.LoopComesToRest: quality in its acceptable range, a received level that follows the attenuation exactly, and no averaging in the loop.
- PowerLoop.FilteredLoopComesToRest: the same path with averaging in the loop; positive steps, thresholds in order, and an average as samples from zero to 255 leave it.
- PagingQueues.PagingState.RunStuck: emergency warnings do not begin, change or end during the run.
- PowerControl.LoopApproaches: the same idealised loop.
- PagingMessage.BitVec.AppendP1: no group call information in the rest octets, which no caller in the paging code passes.
- PagingMessage.FillType1: the same.
- PagingGroup.GroupInRange: configurations that reserve all CCCH blocks for access grants are excluded; the library then computes a non-positive number of paging blocks.
- EtwsPages.EtwsState.BuildP1: only for a page that exists, see the next line.
- PagingQueues.PagingState.GenMsg: an ETWS notification whose due page does not exist (see `EtwsState.Command`) is excluded; the code then computes a negative page length, and what follows is up to the bit vector library.
- PagingQueues.PagingState.AddIdentity: failing memory allocation, and queue limits so large that 66 times the limit exceeds 32 bits.
- Agch.AgchQueue.Compact: the drop probability is computed without overflow; lengths stay below 102, but levels from the network could in principle be large.
- Cbch.CbchState.CbchGet: no load indications to the network and no counters.
- Measurement.Lchan.CheckCompute: conversion of averages to RXLEV and RXQUAL codes, per-mode tables of SUB frames (an input of NewUlMeas) and logging.
- PowerRamp.PowerRamper.TimerCb: gains, losses and calibration between total and board power, a constant offset during a ramp.
- Burst contents and measurements of bursts in the uplink scheduler.
- Control of the mobile's power: its steps come from band tables of a library.
- Transport: sockets, message queues, RTP and Osmux payload, the control and management interfaces.
- LAPDm, speech and data codecs, SID classification, TLV parsing and bit vectors of libraries; their results are inputs or their effect is defined here.
- Finite tables: object state machines, the AMR discontinuous transmission machine, configuration parsing.
- Radio link counters, handover and group call retries, timing advance, notification channel rotation: small and independent of the rest.
- Appending to the queue of downlink traffic frames of a channel, a bounded list without further properties.
