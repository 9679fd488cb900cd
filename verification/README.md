# rfircd: a model of its protocol cores and proofs about them

rfircd is a gateway between IRC and amateur packet radio. This project models the parts of it that
decide something hard, and proves what they promise.

| files | what they model |
|---|---|
| `Session`, `SessionTable` | the AIRC session layer: fragmentation, bitmap and piggybacked acknowledgements, duplicate window, retry, bounded tables; `Sessions` is the class that does it in place |
| `TwoParty`, `TwoPartySafety`, `ExpiryGap`, `Releases` | two stations and the air between them, which loses, repeats and reorders; safety over whole runs, and exactly where it stops |
| `SessionProgress`, `SessionLiveness`, `SessionDuties` | the same two stations: what was accepted is transmitted, what is repeated is acknowledged, nothing in flight is stuck; no acknowledgement unasked, tables bounded, frames that fit |
| `SessionExact` | what each session operation leaves behind, told from what was there before: timers, bitmaps, epochs, sending, receiving, cutting |
| `SessionRuns`, `SessionRetries` | one peer entry over whole runs: duplicates, retransmission rounds, timers |
| `Airtime`, `AirtimeRuns`, `AirtimeWaits`, `AirtimeExact`, `AirtimeCooldown`, `AirtimeBursts` | the transmit governor: sliding window, rolling hour, runs and cooldown; its delays; its numbers and answers from configuration and history alone; short cooldowns, and what run and cooldown bound |
| `Scheduling`, `SchedulerRuns`, `SchedulerExact`, `Overtaking` | which frame goes next: priority, ageing, funding, guards; its answers from what it holds; who overtakes whom |
| `Pump`, `PumpSafety`, `PumpBudget`, `PumpConservation`, `PumpDrops`, `PumpRaces` | the transmit pump as interleaved atomic sections over scheduler, governor, inhibit and interlock |
| `Kiss`, `Ax25`, `AircFrames`, `CodecStack`, `WireFormats`, `Utf8` | the codecs, each alone and all three nested; the octets on the wire; the text fields of a payload |
| `Civil` | calendar arithmetic |
| `Persist` | background persistence of the nick database |
| `Admission` | connection admission as interleaved atomic steps |
| `IrcMessages`, `IrcLines` | IRC line parsing, printing and scrubbing; lines as clients write them |
| `Registry` | users, nicks, channels |
| `RateLimit` | the token-bucket limiter |
| `Common`, `Callsigns` | octets, time, small containers |

Time is an integer number of microseconds and is always an argument. Octets and sixteen-bit numbers
are bounded integers with bit operations written as arithmetic. Duty, stuffing, tokens and scores are
exact reals. Where the program walks a hash map or picks a least element of one, the order and the
choice among ties are arbitrary: they appear as extra parameters that are only known to be some order,
or some oldest key. A class method that changes state is proved equal to a function on values; the
theorems over runs are about those functions. Link writes succeed or fail as a parameter says.

Where the program is weaker than its own comments, the model follows the program:

- Reassembly expiry (`src/airc/session.rs:617-625`) reports in a bitmap the fragments it is discarding,
  so a release does not always prove delivery. It does exactly for the payloads that are not cut in two
  or more fragments the receiver takes (`Releases.ReleaseProvesDeliveryExactly`), which between stations
  with the same frame size means: payloads that leave room for the two octets of an acknowledgement
  (`Releases.SafeLength`). For every other payload, whatever the two stations' timeouts and windows,
  `ExpiryGap.ExpiryFakesCompletion` is a run in which it is released and never delivered.
- Funding depends on a frame's own cost (`src/ax25/scheduler.rs:292-295`), so frames of one account do
  overtake each other, despite `src/ax25/scheduler.rs:283`: a later one passes an earlier one, in some
  run, exactly if it is cheaper and a full burst pays for it (`Overtaking.OvertakesExactly`).
- `airtime_within` counts a burst that is exactly one window old (`src/ax25/airtime.rs:480`), so a retry
  delay is good strictly after it elapses (`AirtimeWaits.DutyDelayTight`).
- The cooldown starts only when a run reaches `max_continuous` (`src/ax25/airtime.rs:605`). What follows
  is a bound on unbroken runs (`AirtimeRuns.RunsEndInCooldown`). It is not the bound on burst duty that
  `src/ax25/airtime.rs:668-683` takes it for: a run that stops short earns only the run gap of three
  seconds. No interval of one run and one cooldown holds more key-down than one run exactly if the
  cooldown is no longer than the gap (`AirtimeBursts.BurstBoundedExactly`), which a hardware-safe
  configuration usually is not (`AirtimeBursts.GatewayExceedsBurst`).
- A cooldown that is over ends a run even if the silence was shorter than the run gap; bursts closer
  than the gap are bounded exactly if the cooldown is no shorter than the gap
  (`AirtimeCooldown.GapBoundedExactly`).
- `time_until_clear` disagrees with `check` in one situation, a cooldown that is over while the run gap
  is not (`AirtimeWaits.ClearMeansSend`). The governor gets into it exactly if the cooldown is shorter
  than the run gap (`AirtimeCooldown.StaleExactly`).
- `RADIO OFF` discards what is already queued (`src/ax25/airtime.rs:157-158`), and sometimes more: the
  switch is read in one step and the queue purged in a later one (`src/ax25/tnc.rs:509-513`). A frame
  offered after `RADIO ON` can be discarded for the inhibit exactly if the pump is between the two, the
  frame is accepted, and it is no identification (`PumpRaces.DiscardedExactly`).
- The interlock and the inhibit are read before the write and not at it (`src/ax25/tnc.rs:614` and
  `src/ax25/tnc.rs:637-648`). A frame can be keyed with the interlock failed exactly if the pump is past
  its last look at it (`PumpRaces.KeyedUnsafeExactly`), and one that is no identification with the
  inhibit on exactly if it is past the inhibit and the governor agrees (`PumpRaces.KeyedInhibitedExactly`);
  `PumpSafety.KeyingIsSafe` finds the two readings in every run.
- The KISS decoder's limit counts the type octet (`src/ax25/kiss.rs:107`) while the pump's size check does
  not (`src/ax25/tnc.rs:619`), so a frame of exactly the maximum is sent but not received
  (`CodecStack.ReceivedExactly`).
- The registry releases the old nick `*` of a new user without asking whose it is
  (`src/server/state.rs:241-244`), so claims keep their entries exactly if `*` is not among them
  (`Registry.ClaimsKeptExactly`). This is a gap of the registry's interface only: no caller passes `*`,
  which `src/irc/message.rs:230-241` does not take for a nick.

## Model

| member | source | states |
|---|---|---|
| SessionTable.Sessions.OnReceive | src/airc/session.rs:335-461 | receiving is exactly the specified change of one peer entry, with an oldest reassembly entry evicted if need be, or nothing when the table is full; every entry keeps its invariant and the table its bound |
| SessionTable.Sessions.Enqueue | src/airc/session.rs:505-594 | a number is always spent; room is made by dropping a peer heard longest ago and reporting it; the outcome is the specified one |
| SessionTable.Sessions.TickRetries | src/airc/session.rs:605-683 | the two loops over all peers, in some order, give a walk whose effect `TickedAtEachPeer` determines |
| SessionTable.TickedAtEachPeer | src/airc/session.rs:605-683 | whatever the iteration order, each peer ends as if ticked alone, sends exactly its own frames, and is removed exactly when lost |
| SessionTable.Sessions.OnKeyed | src/airc/session.rs:685-698 | a key-down report rearms the timer of the matching message of that peer and touches nothing else |
| SessionTable.Sessions.DrainAcks | src/airc/session.rs:464-472 | each owed acknowledgement goes out once, and none is owed afterwards |
| SessionTable.Sessions.Touch | src/airc/session.rs:289-301 | inbound traffic never evicts: it is refused exactly when the table is full and the peer unknown |
| SessionTable.Sessions.ForceTouch | src/airc/session.rs:303-319 | outbound traffic evicts a peer heard longest ago, and records it |
| SessionTable.ForceTouchedExactly | src/airc/session.rs:303-319 | the peer spoken to is as it was or new, and just heard of; every other stays, but for one heard of no later than any other that goes from a full table and is reported |
| SessionTable.DrainedAtEachPeer | src/airc/session.rs:464-472 | in whatever order the table is walked, each peer is sent exactly the acknowledgement it is owed and nobody else any |
| SessionTable.Sessions.NextSeq | src/airc/session.rs:268-275 | sixteen-bit numbering that skips zero |
| SessionTable.SetBitmap | src/airc/session.rs:744-753 | the bit-setting loop computes the specified bitmap |
| SessionTable.SplitPayload | src/airc/session.rs:755-772 | the cutting loop computes the specified fragments |
| SessionTable.Acknowledge | src/airc/session.rs:777-834 | the acknowledgement loop computes the specified change of the pending message and its retransmissions |
| SessionTable.StoreFragment | src/airc/session.rs:392-460 | storing a fragment computes the specified reassembly table, delivery and owed acknowledgement |
| Session.BitmapReports | src/airc/session.rs:744-753 | a bitmap has exactly the bits of the fragments in hand |
| Session.ChunkPayloadJoins | src/airc/session.rs:755-772 | fragments rejoin to the payload and fit the frame, the first leaving two octets for a piggyback |
| Session.OwedFrameParses | src/airc/session.rs:701-735 | an acknowledgement written is read back as itself |
| Session.ReceiveOk | src/airc/session.rs:335-461 | receiving keeps: an empty pending slot means an empty queue, a pending message has an unacknowledged fragment, a reassembly entry has a hole |
| Session.EnqueueOk | src/airc/session.rs:505-594 | enqueueing keeps the same invariant |
| Session.TickOk | src/airc/session.rs:605-683 | the timers keep the same invariant |
| TwoParty.HeardIsReceive | src/airc/session.rs:335-461 | the micro-steps of a station in the two-party model are together the session layer's receive |
| TwoParty.TickedIsTick | src/airc/session.rs:605-683 | and its timer steps are together the session layer's tick |
| TwoPartySafety.ReleasedWasDelivered | src/airc/session.rs:335-461 | over any run on a lossy, duplicating, reordering channel with no number reuse: a message released on an acknowledgement was delivered, or an entry of it expired, was evicted or was dropped with the session at the receiver |
| Releases.ReleaseProvesDeliveryExactly | src/airc/session.rs:335-461 | for a given kind and payload and given configurations: in every run, released implies delivered, if and only if the payload is not cut in two or more fragments that fit the receiver, with or without a piggyback |
| Releases.WholeReleaseDelivers | src/airc/session.rs:401-409 | a message that went out in one piece and was released was delivered, whatever the receiver expired, evicted or forgot |
| Releases.UndeliveredWasCut | src/airc/session.rs:411-459 | a message released and not delivered had two or more fragments, each of which the receiver takes |
| Releases.SafeLength | src/airc/session.rs:755-772 | the condition as a length: at most a frame's payload less the two octets of a piggyback |
| TwoPartySafety.DeliveredIsWhatWasSent | src/airc/session.rs:392-460 | every non-HELLO payload delivered is byte for byte the one enqueued or broadcast under its number, through any order, duplication, selective retransmission, expiry or eviction |
| TwoPartySafety.DeliveredInEnqueueOrder | src/airc/session.rs:534-594 | when a reliable message is delivered, every earlier one was delivered before it, given up, or thrown away |
| Releases.WholeInEnqueueOrder | src/airc/session.rs:534-594 | an earlier reliable message that went out in one piece was delivered before, or given up, whatever the receiver threw away |
| TwoPartySafety.AllStored | src/airc/session.rs:425-459 | a message all of whose fragments were ever stored was delivered or thrown away |
| TwoPartySafety.ReleaseEarned | src/airc/session.rs:777-834 | an acknowledgement that completes a message, whole or by bitmap, was earned at the receiver |
| TwoPartySafety.DoesKeeps | src/airc/session.rs:335-683 | every operation of either station keeps the two-party invariant |
| ExpiryGap.ExpiryFakesCompletion | src/airc/session.rs:617-625 | for every payload that can be so cut, every kind and every pair of configurations, a run from two fresh stations where expiry makes the sender release a message that is never delivered |
| SessionProgress.AcceptedIsSent | src/airc/session.rs:534-594 | over any run, each reliable message accepted still waits in the queue, was given up, or each of its fragments was transmitted, addressed and asking for an acknowledgement; so was each fragment of the message in flight |
| SessionLiveness.RepeatIsAcknowledged | src/airc/session.rs:373-380 | a message received before is acknowledged again, and that on the air once drained, whenever a copy of it asks for that |
| SessionLiveness.AcknowledgedIsReleased | src/airc/session.rs:777-834 | hearing an acknowledgement of a whole message releases it at a sender that has it in flight |
| SessionLiveness.NeverStuck | src/airc/session.rs:335-594 | whatever happened before, a run can go on so that the message in flight is delivered and released, if the receiver takes its fragments |
| SessionDuties.AcknowledgedWasAsked | src/airc/session.rs:373-459 | over any run, a message is acknowledged, in whole or in part, only if a frame of it was addressed to the station and a frame of it asked |
| SessionDuties.GivenUpWasWaiting | src/airc/session.rs:349-359 | what a step gives up was in flight or waiting, and the step is the timer, a new epoch, or the session being forgotten |
| SessionDuties.ThrownAwayWasHeld | src/airc/session.rs:408-434 | what a step throws away was an incomplete message in hand |
| SessionDuties.TablesBounded | src/airc/session.rs:405-417 | over any run, at most `max_queue` messages wait and at most `max_reasm` incomplete ones are kept, one if that is zero |
| SessionDuties.EverythingFits | src/airc/session.rs:55-57 | over any run, no frame but an acknowledgement is longer than `paclen` with its header, repeated or with an acknowledgement riding on it |
| SessionDuties.FragmentsFill | src/airc/session.rs:755-772 | every fragment but the last is exactly that long |
| SessionDuties.CanAcceptExactly | src/airc/session.rs:479-484 | `can_accept` is true exactly when a reliable send of a message of up to 255 fragments would be accepted |
| SessionExact.KeyDownArms | src/airc/session.rs:685-698 | a key-down report sets the timer of the message in flight to one to four acknowledgement times after it, by the attempts made; any other report does nothing |
| SessionExact.TimerWaits | src/airc/session.rs:627-683 | before it is due nothing happens to the message in flight |
| SessionExact.TimerRepeats | src/airc/session.rs:633-659 | when it is due exactly the fragments not acknowledged go out again, marked as repeated, and the timer is set anew |
| SessionExact.TimerGivesUp | src/airc/session.rs:646-681 | after the last attempt the message is given up, counted, and the next one transmitted; with none left the session is over |
| SessionExact.TimerIdle | src/airc/session.rs:633-642 | without a key-down report, or with repeats switched off, the timer leaves the message in flight alone |
| SessionExact.TimerForgets | src/airc/session.rs:609-631 | a session heard of too long ago is forgotten, and otherwise exactly the incomplete messages that are too old |
| SessionExact.ExpiryIsReported | src/airc/session.rs:617-626 | each incomplete message that expires, and was asked about, is reported with a bitmap of what was in hand |
| SessionExact.BitmapIsHeeded | src/airc/session.rs:777-834 | a bitmap completes the message in flight, or each fragment it reports counts from then on and exactly what is still missing goes out again; one that reports nothing new changes nothing |
| SessionExact.NewEpochStartsOver | src/airc/session.rs:349-359 | a HELLO of a new epoch clears what was received, owed, in flight and waiting, and is remembered |
| SessionExact.HelloIsAlwaysHeard | src/airc/session.rs:381-390 | a HELLO is handed on however often it is heard, and one of the known epoch disturbs nothing sent |
| SessionExact.EpochIsRead | src/station.rs:318-321 | the epoch a station writes into its HELLO is the epoch read from it, whatever the name before it |
| SessionExact.OthersStay | src/airc/session.rs:408-417 | a fragment pushes another message out only if the table is full, and no more than the victim |
| SessionExact.OldestGoes | src/airc/session.rs:408-417 | and that one was begun no later than any other |
| SessionExact.OwedRidesAlong | src/airc/session.rs:519-594 | an acknowledgement owed in whole rides on the first frame of the next reliable message if nothing is in flight, and is owed no more |
| SessionExact.CutInFew | src/airc/session.rs:755-772 | a payload is cut in as few fragments as hold it, all but the last one full, the first less two octets if an acknowledgement rides on it |
| SessionExact.UnreliableIsSent | src/airc/session.rs:545-565 | an unreliable message is transmitted at once, asks for nothing and is forgotten |
| SessionExact.ReliableWaits | src/airc/session.rs:566-582 | a reliable message behind another goes to the end of the queue and nothing goes out; at a full queue it is refused and counted |
| SessionExact.TooLongIsRefused | src/airc/session.rs:534-544 | a message of more than 255 fragments is refused and counted, its number spent |
| SessionExact.NumbersGoRound | src/airc/session.rs:268-275 | the numbers go from one to 65535 and round again without zero |
| SessionExact.FragmentIsKept | src/airc/session.rs:418-447 | a fragment that leaves others missing is kept and nothing handed on; a repeated one that asks, and only that, is answered with a bitmap of what is in hand |
| SessionExact.LastFragmentCompletes | src/airc/session.rs:435-461 | the last missing fragment completes the message, makes it a duplicate from then on, and owes the acknowledgement if one was asked for |
| SessionExact.DuplicateExactly | src/airc/session.rs:373-391 | a frame is called a duplicate exactly if its number was received and it is neither an acknowledgement nor a HELLO, and is then not handed on |
| SessionRuns.AtMostOncePerWindow | src/airc/session.rs:373-399 | while an entry lives and no new epoch starts, two non-HELLO deliveries of one number have at least `dedup_window` deliveries between them |
| SessionRuns.WindowDistinct | src/airc/session.rs:866-871 | the duplicate window never holds a number twice nor outgrows its size |
| SessionRetries.RetransmissionsBounded | src/airc/session.rs:627-698 | a message of n fragments is retransmitted at most n * (max_retries + 1) - 1 times; a pending message always has an unacknowledged fragment and no pending message means an empty queue |
| SessionRetries.TimerWaitsForKeyDown | src/airc/session.rs:627-698 | the timer repeats or gives up only after a key-down report, and gives up no sooner than all back-offs after the first one |
| SessionRetries.FollowIsSession | src/airc/session.rs:335-698 | the entry watched by the two bounds moves exactly as the session layer's |
| Airtime.Governor.Check | src/ax25/airtime.rs:486-549 | the decision and the state left behind are the specified ones, trimming included |
| Airtime.Governor.Record | src/ax25/airtime.rs:586-609 | the burst, the run, the total and the cooldown recorded |
| Airtime.Governor.RetryAfter | src/ax25/airtime.rs:554-582 | the expiry loop computes the specified delay |
| Airtime.Governor.TimeUntilClear | src/ax25/airtime.rs:412-448 | the read-only query computes the longest of the waits |
| Airtime.Governor.Trim | src/ax25/airtime.rs:466-475 | exactly the leading bursts older than both windows are dropped |
| Airtime.TrimKeepsSums | src/ax25/airtime.rs:461-483 | trimming never changes what either window counts, now or later |
| Airtime.AirtimeConfig.Allowance | src/ax25/airtime.rs:401-404 | the allowance is at most half the window and at most the effective duty of it |
| Airtime.Clamp | src/ax25/airtime.rs:661-665 | an effective duty is never outside zero to one half |
| AirtimeRuns.WindowHalfIdle | src/ax25/airtime.rs:466-549 | for every run and every position of the window, at most half of it is key-down, under any live duty overrides |
| AirtimeRuns.WindowWithinDuty | src/ax25/airtime.rs:486-534 | without overrides, at most the allowance, which is at most the effective duty of it |
| AirtimeRuns.HourWithinBudget | src/ax25/airtime.rs:536-546 | every 3600-second interval respects a non-zero hourly budget |
| AirtimeRuns.IntervalLoad | src/ax25/airtime.rs:477-483 | key-down inside any interval is covered by the load admitted with the last burst that touches it |
| AirtimeRuns.RunsEndInCooldown | src/ax25/airtime.rs:510-524 | an unbroken run, which the run gap or an elapsed cooldown ends, outlasts `max_continuous` only as a single frame, and a run that long is followed by the whole cooldown |
| AirtimeCooldown.GapBoundedExactly | src/ax25/airtime.rs:493-524 | bursts less than the run gap apart add up to no more than `max_continuous`, or one frame, in every run under every configuration with this cooldown, if and only if the cooldown is no shorter than the run gap |
| AirtimeCooldown.StaleExactly | src/ax25/airtime.rs:412-448 | a state in which `time_until_clear` and `check` disagree is reached if and only if the cooldown is shorter than the run gap |
| AirtimeCooldown.ShortIsTaken | src/config.rs:735-820 | the runs behind the two results above use frames and a configuration the gateway takes, for cooldowns of one and two seconds |
| AirtimeBursts.BurstBoundedExactly | src/ax25/airtime.rs:668-683 | in every run of spaced frames none of which is longer than `max_continuous`, under every configuration with this cooldown: no interval of one run and one cooldown holds more key-down than one run, if and only if the cooldown is no longer than the run gap |
| AirtimeBursts.GatewayExceedsBurst | src/ax25/airtime.rs:686-702 | for every cooldown of six whole seconds or more, a hardware-safe configuration the gateway takes and a run of full frames that keys 5.6 seconds where one run and one cooldown allow three |
| AirtimeExact.CostExactly | src/ax25/airtime.rs:452-459 | from octets and configuration: the key-up delay, the tail, and in between as many whole microseconds as the stuffed bits take at that rate |
| AirtimeExact.AllowanceExactly | src/ax25/airtime.rs:401-404 | the allowance is the duty's share of the window in whole microseconds, the duty held between zero and one half |
| AirtimeExact.OverrideExactly | src/ax25/airtime.rs:267-287 | a percentage set by the operator is what counts, up to fifty; cleared or zero, the configuration |
| AirtimeExact.PacingExactly | src/ax25/airtime.rs:289-300 | a pacing override can only lengthen the configured gap |
| AirtimeExact.SentExactly | src/ax25/airtime.rs:486-549 | in every run, for every frame and moment: sent if and only if the run before is over or leaves room and both windows have room, counted over all that was transmitted; otherwise the reason is the first that applies |
| AirtimeExact.CooldownDelayExactly | src/ax25/airtime.rs:493-524 | in every run, a frame the run refuses is told to wait for the end of the cooldown, or for three seconds of silence |
| AirtimeExact.TotalExactly | src/ax25/airtime.rs:586-609 | over any run the running total is the key-down of everything sent |
| AirtimeExact.TooLargeWaits | src/ax25/airtime.rs:554-582 | a frame larger than the allowance is never sent, and put off by a window or thirty seconds |
| AirtimeExact.ClearWaitsEnough | src/ax25/airtime.rs:412-448 | once `time_until_clear` has passed with nothing sent, `check` sends |
| AirtimeExact.ClearWaitsNoLonger | src/ax25/airtime.rs:412-448 | before it has, `check` does not, the floor of 100 ms aside and given a cooldown no shorter than the run gap |
| AirtimeExact.TrimExactly | src/ax25/airtime.rs:461-475 | what is forgotten has left both windows, and what is remembered begins with a burst that has not |
| AirtimeWaits.DutyDelayTight | src/ax25/airtime.rs:526-582 | a duty refusal names the burst it waits for: nothing is sent until that burst is more than a window old, and duty does not refuse after the delay |
| AirtimeWaits.FiveDeferralsSuffice | src/ax25/airtime.rs:486-582 | for non-overlapping history, asking again after each delay ends in a transmission within five deferrals |
| AirtimeWaits.DeferralEnds | src/ax25/airtime.rs:486-582 | for any history, asking again after each delay ends in a transmission, if the cost fits allowance and hourly budget |
| AirtimeWaits.ClearMeansSend | src/ax25/airtime.rs:412-448 | `time_until_clear` is zero exactly when `check` would send, except for a run whose cooldown is over before the gap |
| Scheduling.Scheduler.Push | src/ax25/scheduler.rs:196-204 | refused exactly when the class is at its depth, otherwise appended |
| Scheduling.Scheduler.Pop | src/ax25/scheduler.rs:285-303 | takes the specified best offer out of its queue |
| Scheduling.Scheduler.Expire | src/ax25/scheduler.rs:212-229 | exactly the stale frames of the three expiring classes leave, in order |
| Scheduling.Scheduler.Requeue | src/ax25/scheduler.rs:250-256 | back to the head of its class, the pacing gate only ever later |
| Scheduling.Scheduler.OnKeyed | src/ax25/scheduler.rs:241-246 | debits the account and arms pacing and reply window |
| Scheduling.Scheduler.Debit | src/ax25/scheduler.rs:333-353 | charges down to the deficit floor, evicting an oldest account when the table is full |
| Scheduling.Scheduler.Poll | src/ax25/scheduler.rs:259-275 | ready exactly when something is queued and no guard runs beyond now |
| Scheduling.Scheduler.DrainExcept | src/ax25/scheduler.rs:404-413 | empties every class but one and returns what was in them |
| Scheduling.Scheduler.Drain | src/ax25/scheduler.rs:394-400 | empties every class and returns everything |
| SchedulerRuns.BoundedOvertaking | src/ax25/scheduler.rs:285-313 | a frame popped while another class offers one was queued after that one by at most an ageing time for each class it is ahead, the handicap of an account that cannot pay counted for either; by strictly less if it is of the lower class |
| SchedulerRuns.NoOvertakingOfCheaper | src/ax25/scheduler.rs:285-303 | over any run of push, pop, requeue, expire and drain: a frame leaves behind no earlier frame of its account and class, unless it is cheaper and a full burst pays for it |
| Overtaking.OvertakesExactly | src/ax25/scheduler.rs:283-295 | a frame of given cost passes an earlier one of given cost, of the same account and class, in some run from an empty scheduler, if and only if it is cheaper and costs no more than a full burst, and the class takes frames |
| SchedulerRuns.CreditBounded | src/ax25/scheduler.rs:317-353 | every account stays between its deficit floor and a full burst, and the table within its limit |
| SchedulerExact.PopTakes | src/ax25/scheduler.rs:285-303 | something is popped unless all queues are empty, and of its class it is the first frame its account can pay for, or the first if none can |
| SchedulerExact.HigherClassFirst | src/ax25/scheduler.rs:305-313 | of frames that wait equally long and are alike in funding, the popped one is of the higher class |
| SchedulerExact.WaitIsExact | src/ax25/scheduler.rs:258-275 | waiting as long as told makes it ready, and any less does not |
| SchedulerExact.ReadyAfterKeyDown | src/ax25/scheduler.rs:241-275 | after a transmission it is ready exactly when gap, reply window if a reply was asked for, and receive guard have passed |
| SchedulerExact.ReadyAfterReception | src/ax25/scheduler.rs:231-237 | after reception no reply is awaited and the guard runs from there |
| SchedulerExact.ReadyAfterRequeue | src/ax25/scheduler.rs:248-275 | after a deferral it is ready exactly when the delay and whatever held it before have passed |
| SchedulerExact.ChargedExactly | src/ax25/scheduler.rs:333-353 | a transmission leaves its account with that much less, down to the deficit floor |
| SchedulerExact.OthersKeepCredit | src/ax25/scheduler.rs:333-353 | nobody else is charged, nor forgotten unless the table is full |
| SchedulerExact.QuietestGoes | src/ax25/scheduler.rs:337-346 | a full table forgets, for a new account, one that was charged no later than any other |
| SchedulerExact.CreditGrows | src/ax25/scheduler.rs:317-327 | credit is earned with time at the station's rate up to a full burst, which is what an unknown account has |
| SchedulerExact.ExpiryExactly | src/ax25/scheduler.rs:212-229 | expiry takes exactly what was held too long out of the chat, direct and control queues, and keeps the order of what stays |
| SchedulerExact.DrainExactly | src/ax25/scheduler.rs:404-413 | a drain leaves the class it keeps as it was and the others empty |
| SchedulerExact.PushExactly | src/ax25/scheduler.rs:196-204 | a frame goes behind its class unless that is full, and changes no other |
| SchedulerExact.HarmlessExactly | src/ax25/scheduler.rs:355-360 | in every run, forgetting accounts idle for so long changes nobody's credit then or later, if and only if that time earns the way from the deficit floor to a full burst |
| Pump.TransmitPump.Prepare | src/ax25/tnc.rs:508-568 | the top of the loop is drain, duty, pacing, expiry and poll, in that order |
| Pump.TransmitPump.Transmit | src/ax25/tnc.rs:599-633 | one pass of the transmit branch is the composition of the pump's atomic sections, whatever the flags and the link say |
| Pump.TransmitPump.AskAndWrite | src/ax25/tnc.rs:627-697 | the governor, the second interlock reading, the write and the bookkeeping |
| PumpSafety.KeyingIsSafe | src/ax25/tnc.rs:599-697 | over any interleaving: whenever a frame is keyed, every earlier key-down ended `tx_pacing` before, everything heard is `rx_guard` ago, each reply window has passed or was answered; the last reading of the interlock was good, and of the inhibit unless the frame is an identification, and if either is otherwise by now it was switched after that reading |
| PumpRaces.KeyedUnsafeExactly | src/ax25/tnc.rs:637-648 | from any reachable state with the interlock failed, a frame may be keyed before it recovers if and only if the pump is past its last look at it |
| PumpRaces.KeyedInhibitedExactly | src/ax25/tnc.rs:614-648 | from any reachable state with the inhibit on, a frame other than an identification may be keyed before it is off if and only if the pump holds one past the inhibit that the governor has let through or will |
| PumpRaces.WritingIsReached | src/ax25/tnc.rs:637-648 | the pump gets there: for every first frame it lets through, a reachable state past both readings with the interlock failed and the inhibit on |
| PumpRaces.DiscardMeansPurging | src/ax25/tnc.rs:509-618 | over any run from a state with the inhibit off, until it is switched on: what is discarded for the inhibit was discarded before, or a purge was about to happen |
| PumpRaces.DiscardedExactly | src/ax25/tnc.rs:509-513 | from any reachable state with the inhibit off, a frame offered now may be discarded for it, nobody switching it on, if and only if the pump has read the switch and not purged yet, and the frame is accepted and no identification |
| PumpRaces.PurgingIsReached | src/ax25/tnc.rs:509-513 | the pump gets there: a reachable state with the inhibit off and a purge about to happen |
| PumpBudget.AirStaysWithinBudget | src/ax25/tnc.rs:523-697 | over any interleaving, every window-long interval on the air is at most half key-down and every hour within budget |
| PumpBudget.AirStaysWithinDuty | src/ax25/tnc.rs:523-697 | as long as no override is set, every window-long interval on the air is within the configured allowance |
| PumpConservation.EachFrameInOnePlace | src/ax25/tnc.rs:217-249 | each accepted frame is at all times exactly one of queued, in hand, keyed once, or dropped |
| PumpConservation.IdsAndDepths | src/ax25/tnc.rs:509-695 | an identification is dropped only for its size or at shutdown; no class queue, with the frame in hand, exceeds its depth plus one |
| PumpDrops.EveryDropCaused | src/ax25/tnc.rs:509-695 | over any run, each drop happened at a step that gave cause for it: the inhibit on and no identification, larger than a frame may be, held too long or put off past it and neither identification nor acknowledgement, or the station stopping |
| PumpDrops.TakeExactly | src/ax25/tnc.rs:600-613 | over any run, the pump takes a frame exactly if something is queued and no guard holds the transmitter: the first of its class that its account can pay for, or the first |
| PumpDrops.SwitchesAreRead | src/ax25/tnc.rs:509-513 | a purge is decided on exactly with the inhibit on, and frames are looked for exactly with the interlock good |
| PumpDrops.FrameInHand | src/ax25/tnc.rs:614-697 | what becomes of the frame in hand at the inhibit and size check, the governor, the second interlock reading and the write: dropped for exactly these causes, on the air, or first of its class again with nothing taken before its delay |
| PumpDrops.EnqueueExactly | src/ax25/tnc.rs:217-249 | a frame offered is queued behind its class as it was offered, priced by its size, unless the class is full |
| PumpDrops.NothingOversized | src/ax25/tnc.rs:619-624 | over any run, no frame larger than allowed is keyed |
| PumpDrops.CostIsKeyed | src/ax25/tnc.rs:217-249 | over any run, a frame is accepted at the cost of its size, keyed for that long if the governor is on, and its account charged what was keyed |
| PumpDrops.DutyTakesEffect | src/ax25/tnc.rs:523 | from the next time the pump looks, the allowance is that of the percentage set last, up to fifty, or the configured one once cleared |
| PumpDrops.PacingTakesEffect | src/ax25/tnc.rs:524-528 | and the gap is the configured one, or the one set last if that is longer |
| Kiss.Encode | src/ax25/kiss.rs:20-43 | the stuffing loop computes the specified encoding, type octet included |
| Kiss.KissDecoder.Push | src/ax25/kiss.rs:73-117 | the decoder loop computes the specified state and frames, octet by octet |
| Kiss.SplittingIsIrrelevant | src/ax25/kiss.rs:73-117 | however the octets are cut into reads, the frames and the state are the same |
| Kiss.StreamDecodes | src/ax25/kiss.rs:20-126 | from any decoder state, concatenated encodings that fit decode to at most one leftover frame and then exactly the list |
| Kiss.EncodedDecodes | src/ax25/kiss.rs:104-111 | from any decoder state, one encoded frame of any length comes out exactly if it fits with its type octet, and leaves the decoder in sync |
| Ax25.EncodeAddress | src/ax25/address.rs:42-56 | the encoding loop computes the specified seven octets |
| Ax25.DecodeAddress | src/ax25/address.rs:58-85 | the decoding loop computes the specified address or error |
| Ax25.AddressRoundTrip | src/ax25/address.rs:42-85 | an address reads back as written, whatever follows it |
| Ax25.EncodeFrame | src/ax25/frame.rs:58-81 | the encoding loop computes the specified octets, the extension bit on the last address only |
| Ax25.DecodeFrame | src/ax25/frame.rs:83-135 | the decoding loop computes the specified frame or error, extension bits cleared |
| Ax25.FrameRoundTrip | src/ax25/frame.rs:58-135 | a frame decodes to itself, extension bits aside, exactly when its path is short enough and its PID is where its control octet says |
| Ax25.DecodeIsStable | src/ax25/frame.rs:83-135 | what was decoded encodes and decodes to itself |
| Ax25.UiRoundTrip | src/ax25/frame.rs:31-51 | a UI frame is refused exactly beyond eight digipeaters, and otherwise decodes to itself |
| WireFormats.AddressLayout | src/ax25/address.rs:42-56 | six characters shifted and padded, then command bit, two reserved bits set, SSID and extension bit |
| WireFormats.AddressReadExactly | src/ax25/address.rs:58-85 | an address is read if and only if its six character octets have the low bit clear, carry letters, digits or padding, and are not all padding |
| WireFormats.FrameReadExactly | src/ax25/frame.rs:83-135 | exactly the octet strings are read that are laid out as a frame: two addresses and up to eight more, the extension bit on the last only, a control octet, and a PID if that asks for one |
| WireFormats.LaidOutIsRead | src/ax25/frame.rs:83-135 | and what is read is what is laid out, destination first, then source, control, PID and information |
| WireFormats.PidExactly | src/ax25/frame.rs:105-114 | a PID follows the control octet exactly if its lowest bit is clear, or it is 0x03 but for the poll bit |
| WireFormats.UiLayout | src/ax25/frame.rs:31-81 | a UI frame on the wire: command bit on the destination only, the path in order, control 0x03, PID 0xF0, the information |
| WireFormats.KissLayout | src/ax25/kiss.rs:20-43 | one delimiter at either end and none within, port and command in one octet, one octet more for each delimiter or escape in it |
| WireFormats.KissEscapes | src/ax25/kiss.rs:37-43 | the two octets that stand for the delimiter and for the escape, all others themselves |
| WireFormats.BadEscape | src/ax25/kiss.rs:85-111 | an escape that escapes nothing loses what came before it in the frame; one before a delimiter loses nothing |
| WireFormats.AircLayout | src/airc/frame.rs:154-173 | magic, kind, flags with the piggyback bit, number high octet first, fragment and count, the attached number, the payload |
| WireFormats.AckLayout | src/airc/session.rs:701-718 | an acknowledgement carries the number, and the bitmap if only part arrived |
| AircFrames.EncodeFrame | src/airc/frame.rs:154-173 | the buffer filled is the specified encoding |
| AircFrames.DecodeFrame | src/airc/frame.rs:175-206 | the specified frame, or the error the program finds first |
| AircFrames.DecodeEncode | src/airc/frame.rs:154-206 | decode undoes encode, up to the piggyback flag, and refuses a bad fragment number |
| AircFrames.EncodeDecode | src/airc/frame.rs:154-206 | encode undoes decode for every octet string that decodes |
| AircFrames.FieldsRoundTrip | src/airc/frame.rs:211-240 | fields joined and split again are as many, each without separators, line breaks and NULs and with invalid UTF-8 replaced; fields that were text come back as text, unchanged but for that |
| Utf8.LossyKeepsExactlyValid | src/airc/frame.rs:211-217 | lossy decoding leaves a text as it is if and only if it is valid UTF-8, and always yields a valid one |
| Utf8.ValidExactly | src/airc/frame.rs:211-217 | valid is exactly what encodes some sequence of code points that are no surrogates |
| Utf8.LossyReplaces | src/airc/frame.rs:211-217 | where text stops, the longest beginning of a character that stands there, or one octet, becomes U+FFFD, and reading goes on behind it |
| CodecStack.StackRoundTrip | src/ax25/kiss.rs:73-126 | from any decoder state and any splitting, transmissions that fit come out after at most one leftover frame, each understood through AX.25 and AIRC as what was sent |
| CodecStack.ReceivedExactly | src/ax25/kiss.rs:107-111 | from any decoder state, a transmission is understood as what was sent if and only if it is strictly shorter than the decoder's limit, and the decoder is in sync afterwards |
| Civil.CivilUtcIsCalendar | src/server/commands/misc.rs:195-213 | the closed formula is the Gregorian date counted a day at a time, always a valid date, and the time of day recomposes the seconds |
| Civil.CivilIsCalendar | src/server/commands/misc.rs:201-212 | day 0 is 1970-01-01 and each day is the calendar successor of the one before, across months, centuries and eras |
| Persist.Accounts.Commit | src/accounts.rs:360-387 | in the background: memory first and a writer for the new generation; on the spot: the file first and memory only if it was written |
| Persist.Accounts.Mutate | src/accounts.rs:350-358 | a refusal or a failed write changes nothing; on the spot, file and memory stay equal |
| Persist.Accounts.RunWriter | src/accounts.rs:371-380 | a writer writes only if its generation is still the latest, and counts a failure |
| Persist.DiskNeverGoesBack | src/accounts.rs:360-387 | over any interleaving of commits and writers the generation on disk never goes backwards |
| Persist.QuietDiskIsStore | src/accounts.rs:360-387 | when all writers have finished, the file is the latest generation exactly when the last one's write succeeded, and then equals the store |
| Persist.FailuresExactly | src/accounts.rs:371-380 | over any interleaving, each background write that failed is counted once |
| Admission.AdmissionGate.TryAcquire | src/irc/admission.rs:133-173 | which of the three refusals, and that a refusal puts back what it took |
| Admission.AdmissionGate.Release | src/irc/admission.rs:175-188 | gives back exactly what the slot counted, and removes a host at zero |
| Admission.AdmissionHolds | src/irc/admission.rs:133-195 | under any interleaving: slots held within both caps, the total equal to slots plus additions in flight, no underflow, no host left at zero |
| Admission.RefusedExactly | src/irc/admission.rs:133-173 | under any interleaving: a host is refused exactly if banned when that is looked up, as one too many exactly if those in the total reach the cap, and as one too many of its host exactly if that many hold a slot or are giving it back |
| IrcMessages.ParseLine | src/irc/message.rs:34-85 | the loops over tags and parameters compute the specified message |
| IrcMessages.Display | src/irc/message.rs:88-132 | the printing loop computes the specified line |
| IrcMessages.ScrubClean | src/irc/message.rs:140-153 | scrubbed text has no whitespace and no line break |
| IrcMessages.PrintThenParse | src/irc/message.rs:34-180 | a printed line is one line and parses back to the same number of parameters, middle ones scrubbed, the last one as it was but for line breaks |
| IrcMessages.FoldingIdentifies | src/irc/message.rs:183-194 | two nicks fold alike if and only if they differ in nothing but the case of letters, `[]\~` included; folding twice is folding once |
| IrcLines.LineIsRead | src/irc/message.rs:34-85 | however a line is spaced and ended: tags, prefix, command in capitals, words and trailing parameter are read, each where it belongs |
| IrcLines.CommandInCapitals | src/irc/message.rs:60 | the command read has the same letters, none of them small, and nothing else changed |
| IrcLines.TagsAreRead | src/irc/message.rs:40-52 | tags read back as the keys and values they were written from |
| IrcLines.NoCommand | src/irc/message.rs:34-70 | nothing is read from an empty line, or from tags or a prefix alone |
| IrcLines.ScrubExactly | src/irc/message.rs:140-153 | scrubbed text is its words, in order, with underscores between them |
| IrcLines.MiddleExactly | src/irc/message.rs:161-172 | a middle parameter is its scrubbed text, a star if that is nothing, and never begins with a colon |
| IrcLines.StripExactly | src/irc/message.rs:176-180 | line breaks are taken out of the last parameter, and nothing else |
| Registry.State.SetNick | src/server/state.rs:228-250 | claimed exactly when the user exists and the folded nick is free or already theirs |
| Registry.State.Join | src/server/state.rs:266-315 | membership on both sides, with the derived privileges, or nothing |
| Registry.State.Part | src/server/state.rs:366-396 | membership removed on both sides and the channel reaped if deserted |
| Registry.State.RemoveUser | src/server/state.rs:399-413 | the loop removes the user from every channel they were in, in any order |
| Registry.State.EnsureChannel | src/server/state.rs:260-264 | creates a channel only if its folded name is new |
| Registry.NextKeeps | src/server/state.rs:212-413 | every operation keeps membership symmetric and each nick entry pointing at the live user who has it |
| Registry.NicksAreUnique | src/server/state.rs:228-250 | no two users share a nick under RFC 1459 casemapping, but for unnamed ones |
| Registry.LeavingLeavesNothing | src/server/state.rs:366-413 | parting and removing leave no new deserted channel, and a removed user appears nowhere |
| Registry.ManualFlagsStay | src/server/state.rs:322-351 | over any run, a privilege granted by hand is in force until it is taken by hand or its holder leaves, whatever else joins, leaves, is renamed or recomputed |
| Registry.ClaimsKeptExactly | src/server/state.rs:228-250 | in every run that claims nicks of a given set only, whoever claimed one has its entry until giving it up, if and only if the placeholder is not in the set |
| Registry.ConfiguredStays | src/server/state.rs:387-396 | over any run, a configured channel stays, also when nobody is in it |
| Registry.JoinGivesExactly | src/server/state.rs:266-315 | joining gives operator exactly to control operators, to listed and identified nicks, and to the first on a channel that is not RF unless by radio; voice exactly on RF channels to callsigns and control operators |
| Registry.RefreshGivesExactly | src/server/state.rs:322-351 | recomputing leaves exactly those, but for the first, and what was given by hand |
| Registry.PrivilegeHasCause | src/server/state.rs:266-351 | over any run, whoever has a privilege was given it by such a join or recomputation, or by hand, and has had it ever since |
| Registry.GrantExactly | src/server/commands/channels.rs:593-611 | a privilege given or taken by hand is in force or not from then on, and nobody else's changes |
| Registry.MarkExactly | src/server/commands/channels.rs:476-491 | a channel marked as RF forgets which operators were made by hand and nothing of who was given voice; what is in force changes only when privileges are recomputed |
| RateLimit.RateLimiter.Check | src/policy.rs:56-85 | refill, cap and spend, evicting an oldest key when the table is full |
| RateLimit.AcceptedWithinRate | src/policy.rs:56-85 | in any interval, a key whose bucket stays is accepted at most a burst plus `per_minute` times for each sixty million microseconds of it |
| RateLimit.RefusedIsOverRate | src/policy.rs:56-85 | over any run, a check is refused only if accepting it would exceed that bound since some earlier check of its key |
| RateLimit.TokensAndTableBounded | src/policy.rs:39-90 | tokens stay between zero and a burst, the table within its limit |
| RateLimit.OthersStay | src/policy.rs:60-75 | a check leaves every other bucket as it was, but for one evicted from a full table |
| RateLimit.OldestGoes | src/policy.rs:60-75 | and that one was checked no later than any other |
| RateLimit.HarmlessExactly | src/policy.rs:87-90 | in every run, forgetting keys idle for so long changes nobody's tokens then or later, if and only if that time earns a whole burst |

## Left out

- Sockets, TLS, serial ports, tasks, signals, logs, audit trail, Argon2, the wizard, the command line: I/O and foreign calls.
- IRC command handlers and numerics, APRS, beacons, text heuristics against ciphertext: each is settled by reading one branch.
- Reuse of the sixteen-bit sequence numbers: the two-party theorems hold until a station has handed out all 65535 of them.
- HelloEpoch: trims ASCII whitespace and reads octets, where the program trims Unicode whitespace after decoding UTF-8.
- Peer entries are values in the table rather than objects, since the table owns them and nothing else refers to them. Fields only shown to users (channels, dialect, kicks, bans, first heard) are not modelled.
- Airtime.AirtimeConfig.AirtimeFor: does not model floating-point rounding; products and quotients are exact and rounded down once.
- Published counters, the backlog estimate and admission pricing read the modelled state and decide nothing in it.
- Pump.TransmitPump.Transmit: does not itself interleave with other threads; the run theorems do, section by section.
- KISS parameter setup, reconnection and its back-off: a failed write requeues the frame and the pump goes on.
- Civil.CivilUtcIsCalendar: does not model wrap-around of the 32-bit year, because the year is unbounded here; it fits until the year 2147483647.
- Persist.QuietDiskIsStore: does not model torn writes or the durability of a rename; a write succeeds or leaves the file as it was.
- Admission.AdmissionGate.TryAcquire: does not model folding of host names and addresses; a host is its folded key.
- Registry: channel topics, keys, limits and modes other than `r`, `o` and `v`, and user fields that no modelled operation reads.
- IrcMessages.ParseLine: CTCP and tag values beyond their splitting are not modelled.
- Callsign parsing from text, nick forms of callsigns, mailbox and client lists: easy members.
