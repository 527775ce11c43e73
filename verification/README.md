# diagd: the TR-471 measurement server and the Echo Plus responder, modelled and proved

This project models the server side of a TR-471 / OB-UDPST capacity test (the protocol behind
RFC 9097; the load rate adjustment is its section 8.1 and Appendix A) and the UDP Echo Plus responder
of TR-143, and proves what they keep over whole runs. `dafny verify dfyconfig.toml` checks it.

Code that updates state in place is a class whose methods are proved equal to a function on values;
the whole-run theorems are about those functions.

| file | part of the server |
|---|---|
| `SequenceTracking` | the highest sequence number and the 32-entry ring, against a receiver that remembers everything |
| `Accounting`, `Stream`, `Partitions`, `DelayRuns`, `SubIntervals` | receiver accounting, and its whole runs: losses, the two partitions, delay variation, round trips, when sub-intervals close and what they record |
| `Verdicts`, `StatusRuns` | what the search decides, and what a status message says, about the datagrams of a run |
| `Clock` | 32-bit wire timestamps against exact clocks |
| `RateTable` | the sending rate table in closed form and its nominal rates |
| `RateSearch`, `SearchRuns` | algorithms B and C, one trial and whole runs |
| `Negotiation` | parameter policing and the answer to a test activation |
| `Codec`, `Messages` | the wire layouts, current and legacy |
| `Pacing` | the cadence of one transmitter: ticks, catch-up, starting over |
| `Sender`, `SenderRuns` | bursts, rollback of sequence numbers, and whole runs of the send loop: what is on the wire, at what pace and rate |
| `Upstream`, `Downstream` | the upstream engine: accounting, search and status messages together; the downstream search steered by the client's reports |
| `Admission` | setup decisions, bandwidth and session accounting under interleaving, test ports |
| `EchoPlus` | the Echo Plus responder |
| `EndToEnd` | sender to receiver, and request to rate |

## How the source is read

- Time is an integer number of nanoseconds from the environment; wall clock readings are pairs of seconds
  and nanoseconds. Socket results (kernel acceptance of a batch, ports that can be bound, traffic classes
  that can be set, failed sends) and the outcome of digest checks are inputs.
- Words are 32 or 64 bits wide wherever the source's are, and wrap where the source's do. Counters of type
  `int` in the source are unbounded here.
- Sequence numbers of a legal stream run from 1 to 2^32 - 2. Of the two numbers left out, 0 is called a
  duplicate without having been received exactly while fewer than 32 numbers have been recorded
  (`UnseenDuplicateIff`), and 2^32 - 1 makes every later number advance (`LastNumberForgetsOrder`).
- Nominal bit rates are exact integers instead of floating point.
- The source's trial counters, clock offset and round trip fields are each one record in the model.
- Some promises hold of the code only under a condition, which is proved to be exact, with an input that
  fails: policing its own answer changes nothing unless the traffic class could not be set while a CE
  threshold was asked for (`AnswerIsFixedPoint`, `RefusedMarkingMisstated`), the Echo Plus failure count is
  drops plus failed sends if the kernel's reports never go down (`FailuresExact`, `RestartCountedTwice`),
  the mean delay is right while ten times the sum fits 32 bits (`MeanDelayExact`, `MeanWraps`), and so is the
  test on congestion marks (`MarksJudgedIff`).
- `internal/udpst/server.go:170-171` says that authentication is checked first so that nothing else is revealed
  to an unauthenticated peer. That is so if and only if the request claims mode 1 (`RevealsNothingIff`); any
  other mode is turned away after the version, the options and the bandwidth, and with a budget the answer
  follows what others have reserved (`HidesLoadIff`, `AnswerFollowsLoad`). The model follows the code.
- A random payload size is the least size plus a number of the environment, cut to the range asked for.

## Model

| member | source | states |
|---|---|---|
| SequenceTracking.WindowFollows | internal/udpst/accounting.go:123-163 | after any legal run the window's top is the highest number received, its ring holds the last 32 recorded numbers, and what was recorded is exactly what was received |
| SequenceTracking.InRing | internal/udpst/accounting.go:151-163 | a number is found in the ring if and only if it is among the last 32 recorded |
| SequenceTracking.ClassifyRefines | internal/udpst/accounting.go:121-149 | against a receiver that remembers every number, the only possible error is a repeat read as late; an unseen datagram is never called a duplicate |
| SequenceTracking.LossConservation | internal/udpst/accounting.go:123-149 | for every run and every placement of reports: reported plus pending loss plus what misread repeats took back equals the truly missing plus late arrivals that found the counter at zero; the counter never exceeds the truly missing and never wraps |
| SequenceTracking.LossBounds | internal/udpst/accounting.go:123-149 | without a report in between: missing minus misread repeats <= loss counter <= missing |
| SequenceTracking.ExactIffWindowed | internal/udpst/accounting.go:5-7 | the ring receiver classifies a whole run like the ideal one if and only if every repeat comes while its first arrival is among the 32 latest distinct numbers |
| SequenceTracking.WindowedConservation | internal/udpst/accounting.go:137-149 | on such runs nothing reported is ever taken back, and without reports the loss counter is exactly the number missing |
| SequenceTracking.UnseenDuplicateIff | internal/udpst/accounting.go:12-15 | after any legal run a number never received is called a duplicate if and only if it is 0 and fewer than 32 numbers have been recorded |
| SequenceTracking.ZeroPassesForDuplicate | internal/udpst/accounting.go:12-15 | the first such case: before anything is received, 0 counts as a duplicate |
| SequenceTracking.LastNumberForgetsOrder | internal/udpst/accounting.go:124-131 | every number counts as advancing if and only if the highest so far is 2^32 - 1 |
| Accounting.RxAccounting.constructor | internal/udpst/accounting.go:48-58 | a new object is the fresh accounting state |
| Accounting.RxAccounting.PushHistory | internal/udpst/accounting.go:151-154 | the ring and its index move as one push |
| Accounting.RxAccounting.InHistory | internal/udpst/accounting.go:156-163 | true exactly if the number is in the ring |
| Accounting.RxAccounting.RecordSeq | internal/udpst/accounting.go:123-149 | the new state is the classified, tallied and tracked one, and the result says whether the stream advanced |
| Accounting.RxAccounting.RecordLoad | internal/udpst/accounting.go:61-119 | the new state is that of one datagram: both partitions counted, delay and round trip taken from advancing datagrams only |
| Accounting.RxAccounting.TakeDelay | internal/udpst/accounting.go:71-96 | delay variation against the running minimum, noted in trial and sub-interval |
| Accounting.RxAccounting.TakeRtt | internal/udpst/accounting.go:98-118 | the round trip of a new echo, its minimum and its excess; what they measure is in DelayRuns.RttNearExact and SampledOnce |
| Accounting.RxAccounting.MaybeRoll | internal/udpst/accounting.go:183-202 | the sub-interval is closed when due, and nothing else changes; when that is, is in SubIntervals.ClosesIff |
| Accounting.RxAccounting.ResetTrial | internal/udpst/accounting.go:232-244 | trial counters start over; sequence, ring, clock offset and sub-interval stay |
| Stream.TrialFollows | internal/udpst/session.go:343-373 | over every upstream run the trial counters are those of the sequence tracker on the stream cut at every status |
| Stream.SubFollows | internal/udpst/accounting.go:183-202 | the same for the sub-interval counters, cut at every roll |
| Stream.SameStream | internal/udpst/accounting.go:61-69 | both cuttings are of one stream: same numbers seen, same highest |
| Stream.RunLossConservation | internal/udpst/session.go:348-373 | loss conservation over a whole upstream run, for the losses reported in status messages and for those of closed sub-intervals |
| Partitions.RecordsCountParts | internal/udpst/accounting.go:61-65 | every reported trial and closed sub-interval counts the datagrams and bytes of its own part, modulo its counters' width |
| Partitions.PartsCover | internal/udpst/session.go:343-373 | the parts of either partition, laid end to end, are the datagrams received, each once and in order |
| Partitions.PartitionsAgree | internal/udpst/accounting.go:183-244 | reported trials plus the current one, and closed sub-intervals plus the active one, add up to the same datagrams and bytes, those received, while no interval overflows its own counters |
| Partitions.ClosedAddUp | internal/udpst/session.go:409-410 | after the final forced roll nothing is pending: the closed sub-intervals alone add up to every datagram and byte received, while no interval overflows its own counters |
| Partitions.ClosedLosses | internal/udpst/session.go:409-410 | and the losses they report are the truly missing plus late arrivals that found the counter at zero, less what misread repeats took back |
| Partitions.EveryRecordClassified | internal/udpst/accounting.go:61-96 | in every record received datagrams = delay samples + reordered + duplicates (modulo 2^32) |
| Partitions.AccumTimeLag | internal/udpst/accounting.go:191-201 | AccumTime never runs ahead of the true end of the last sub-interval and lags by less than 1 ms per roll |
| Clock.WallDiffExact | internal/udpst/session.go:726-731 | the difference is within 1 ms of exact if and only if the true difference of the seconds fits a signed 32-bit word |
| Clock.DelayVariationNear | internal/udpst/accounting.go:71-80 | the excess over the running minimum is never negative and within 2 ms of the exact excess |
| DelayRuns.OffsetIsMinimum | internal/udpst/accounting.go:71-79 | over every run the clock offset is the least difference of all advancing datagrams |
| DelayRuns.SampleNearExact | internal/udpst/accounting.go:71-96 | every recorded delay variation is within 2 ms of the exact excess over the exact running minimum, unless the excess does not fit 32 bits |
| DelayRuns.RttIsExcess | internal/udpst/accounting.go:98-118 | over every run the round trip minimum is the least sample and the variation the latest sample's excess over it |
| DelayRuns.SampledOnce | internal/udpst/accounting.go:98-101 | an advancing datagram gives a round trip if and only if it echoes a timestamp other than the one sampled last |
| DelayRuns.RoundTripNear | internal/udpst/accounting.go:102-106 | a sample is within 1 ms of the exact time from the status message to its echo, less what the client held it, if and only if it fits 32 bits |
| DelayRuns.RttNearExact | internal/udpst/accounting.go:98-118 | over every run, against exact clocks: the minimum is within 1 ms of the least exact round trip, the variation within 2 ms of the latest one's excess over it |
| DelayRuns.FoldSummarises | internal/udpst/accounting.go:81-96 | the delay statistics are the true minimum, maximum, sum and count of the samples |
| DelayRuns.SearchDelayIsMean | internal/udpst/algo.go:48-55 | the search's integer delay is the half-up rounding of the exact mean of the trial's samples and lies between DelayVarMin and DelayVarMax |
| SubIntervals.ClosesIff | internal/udpst/accounting.go:180-187 | over every run a status message closes the sub-interval if and only if it comes more than subInt less half a trial interval after the last closing |
| SubIntervals.CadenceKept | internal/udpst/accounting.go:180-187 | with status messages at most a given time overdue, every closed sub-interval lasts more than subInt less half a trial interval, and at most subInt plus half a trial interval plus that time (or a trial interval, where longer) |
| SubIntervals.RecordsMeasure | internal/udpst/accounting.go:191-201 | every closed record's DeltaTime is the microseconds between the two closings it lies between, its AccumTime the milliseconds of all so far, modulo 2^32; the number counts the closings, and the last closed record is the one reported |
| SubIntervals.RecordsSummarise | internal/udpst/accounting.go:71-118 | every sub-interval record holds the delay statistics and the round trip extremes of the samples of its own part of the run |
| SubIntervals.ClosedDelays | internal/udpst/accounting.go:81-96 | so a closed record has the least, the greatest, the sum and the number of its samples |
| StatusRuns.StatusCarries | internal/udpst/accounting.go:206-229 | a status message carries the datagrams, bytes, losses, late and repeated datagrams and delay samples of the trial it closes, the least clock difference and whether it fell in this trial, the least round trip and the excess of the latest, and the last closed sub-interval with its number |
| StatusRuns.UpdatedIff | internal/udpst/accounting.go:74-79 | DelayMinUpd says that the least clock difference fell in the current trial |
| Verdicts.ErrorsCount | internal/udpst/accounting.go:123-149 | the trial's error counters are its pending losses and the numbers of its late and of its repeated datagrams |
| Verdicts.KindIsTrue | internal/udpst/accounting.go:121-149 | within the window those called late or repeated are so |
| Verdicts.JudgedOnTheStream | internal/udpst/algo.go:43-77 | the verdict on a trial of a run: bad with more errors than allowed, counting late and repeated datagrams unless they are ignored; otherwise by the half-up mean of the trial's delay samples, or the excess of the last round trip, whichever is asked for; never good without data of that kind |
| Verdicts.DecidedOnTheStream | internal/udpst/algo.go:43-81 | and nothing is decided while fewer sub-intervals have closed than asked for |
| RateTable.BuildRateTable | internal/udpst/srates.go:104-185 | the nested loops build exactly the closed form: 1153 rows, threshold 1000, in all four flavours |
| RateTable.RegionOne | internal/udpst/srates.go:115-155 | the early stops leave exactly rows 0 to 1000 |
| RateTable.BitsPerSecond | internal/udpst/srates.go:66-89 | frequency times IP-layer size over both transmitters and the add-on |
| RateTable.RowIsItsMbps | internal/udpst/srates.go:115-155 | row n is exactly n Mbps for n in 1..1000, for IPv4 and IPv6; row 0 is below 1 Mbps |
| RateTable.RegionTwoBps | internal/udpst/srates.go:157-183 | the exact rate of every row above 1 Gbps |
| RateTable.RatesAscend | internal/udpst/srates_test.go:68-76 | rates never decrease from row to row, and strictly increase up to row 1000 |
| RateTable.RatesMonotone | internal/udpst/srates.go:115-183 | a lower row never has a higher rate |
| RateTable.BurstsFit | internal/udpst/srates.go:119-141 | no burst exceeds 100 datagrams, and transmitter 1 only runs every 100 us |
| RateSearch.RateController.Adjust | internal/udpst/algo.go:43-108 | the controller's new state is one trial of the search, suppressed and static modes included; what its verdict means is in Verdicts.DecidedOnTheStream |
| RateSearch.RateController.AdjustAlgoB | internal/udpst/algo.go:83-107 | one trial of algorithm B, whose runs RampB, CrawlB and DescentB give in closed form |
| RateSearch.RateController.AdjustAlgoC | internal/udpst/algo.go:110-161 | one trial of algorithm C, whose runs DoublesExactly, DescentC and RearmedAfterWait describe |
| RateSearch.GoodBadDisjoint | internal/udpst/algo.go:76-77 | no trial is both good and bad |
| RateSearch.MoveDirection | internal/udpst/algo.go:83-161 | under either algorithm a good trial never lowers the index nor passes the threshold from below, and raises it under B; a bad one lowers every row but row 0, by at most three fast steps; any other leaves the search as it is; the index stays on the table |
| RateSearch.MeanDelayExact | internal/udpst/algo.go:50-52 | the 32-bit expression is the half-up mean when ten times the sum fits 32 bits, and up to 2^28 samples only then |
| RateSearch.MeanWraps | internal/udpst/algo.go:50-52 | one sample of 2^29 ms comes out at a fifth of its value |
| RateSearch.MarksJudgedIff | internal/udpst/algo.go:56-60 | the test on congestion marks is that they exceed ecnCEThresh - 1 parts in 255 of the datagrams, rounded half up, for every number of marks if and only if ten times the product fits 32 bits |
| SearchRuns.AlwaysOnTable | internal/udpst/algo.go:43-161 | the index is a row after every run, in every mode |
| SearchRuns.FastModeLeftForGood | internal/udpst/algo.go:83-106 | once the slow count reaches its threshold every later trial of algorithm B moves the index by at most one |
| SearchRuns.AtMostOnePlunge | internal/udpst/algo.go:95-102 | a run of algorithm B drops by more than one row at most once |
| SearchRuns.QuadraticBackoff | internal/udpst/algo.go:110-143 | retryThresh = 5(m+1) after m re-arms, retryCount stays below it, and 5m(m+1)/2 + retryCount never exceeds the trials run, so 5m^2 <= 2 trials |
| SearchRuns.PlungesCostTrials | internal/udpst/algo.go:144-159 | in algorithm C every large drop after the first costs at least five trials |
| SearchRuns.RampB | internal/udpst/algo.go:84-94 | n good trials of an armed algorithm B in closed form: to the threshold in fast steps, then row by row to the last |
| SearchRuns.RampC | internal/udpst/algo.go:115-132 | 2n good trials of an armed algorithm C multiply the index by at least 2^n or reach the threshold |
| SearchRuns.DoublesExactly | internal/udpst/algo.go:115-132 | below the threshold n pairs of good trials take row i to row i * 2^n exactly |
| SearchRuns.CrawlB | internal/udpst/algo.go:92-94 | off the fast ramp n good trials of algorithm B climb n rows, to the last |
| SearchRuns.DescentB | internal/udpst/algo.go:95-106 | n bad trials of algorithm B in closed form: one row each, three fast steps in the one that takes the slow count to its threshold below the 1 Gbps row, down to row 0 |
| SearchRuns.DescentC | internal/udpst/algo.go:144-159 | the same for algorithm C up to its next retry |
| SearchRuns.BadTrialsLower | internal/udpst/algo.go:95-159 | under either algorithm n bad trials lower the index by n rows at least, or to row 0 |
| SearchRuns.BadTrialsDescend | internal/udpst/algo.go:95-106 | runs of bad trials are the descents above |
| SearchRuns.RearmedAfterWait | internal/udpst/algo.go:133-159 | off the fast ramp algorithm C moves one row a trial, and the retryThresh-th trial that moves it, none before, puts it back on the ramp |
| SearchRuns.StaticHeld | internal/udpst/algo.go:65-74 | a static rate is at its row after every trial, at row 0 while suppressed |
| SearchRuns.TwentyTrialsToHighSpeed | internal/udpst/algo.go:115-132 | twenty good trials reach the 1 Gbps row from any row |
| SearchRuns.GoodTrialsRamp | internal/udpst/algo.go:84-94 | runs of good trials are the ramps above |
| Negotiation.Session.Police | internal/udpst/session.go:164-247 | the session's parameters are the policed ones; what these are is in the five rows that follow |
| Negotiation.AcceptableIsKept | internal/udpst/session.go:164-247 | a request with nothing out of range is taken at its word, field by field and bit by bit |
| Negotiation.DefaultsApply | internal/udpst/session.go:164-247 | a field out of range gets its default, whatever the other fields are |
| Negotiation.LimitKept | internal/udpst/session.go:184-194 | no test is longer than the server allows; it lasts as asked for, 10 s if that is out of range, or as long as allowed |
| Negotiation.SubIntervalDefault | internal/udpst/session.go:196-208 | a sub-interval is as asked for, a second if that is out of range, or the whole test if that is shorter |
| Negotiation.SuppressionIff | internal/udpst/session.go:235-240 | adjustment is suppressed as asked for if and only if a whole sub-interval is left after it and the version has the field |
| Negotiation.SearchedAsAsked | internal/udpst/session.go:256-273 | the controller of an acceptable request searches as asked, field by field |
| Negotiation.AnswerNamesTheStart | internal/udpst/session.go:144-149 | an upstream answer names the row the search starts from: the one asked for, or row 0; a downstream answer none |
| Negotiation.PolicedConfigValid | internal/udpst/session.go:162-280 | whatever is requested, the parameters are in range and establish all that the search relies on |
| Negotiation.AnswerFaithful | internal/udpst/session.go:119-143 | no narrowing cast in the answer loses anything |
| Negotiation.AnswerIsFixedPoint | internal/udpst/session.go:119-149 | policing the answer gives the same parameters if and only if not (traffic class refused, ECN-capable marking and a CE threshold requested) |
| Negotiation.RefusedMarkingMisstated | internal/udpst/session.go:119-149 | a request for ECT(1) with a CE threshold to a server that cannot set the marking: the server keeps the threshold, the policed answer has none |
| Negotiation.AnswerIsRead | internal/udpst/session.go:119-157 | the answer's bytes parse to the answer, and police to the server's parameters under the same condition |
| Negotiation.Session.Activate | internal/udpst/session.go:90-160 | activated if and only if a request comes from the setup's peer and, on an authenticated session of the current version, its digest verifies; the answer, read off the wire, acknowledges with the row to start from and polices to the parameters the server uses, for current and legacy versions and both PDU sizes, if and only if that condition holds |
| Codec.PutRate | internal/udpst/srates.go:41-49 | the row's seven words at their offsets, other bytes untouched |
| Codec.RateExact | internal/udpst/srates.go:51-61 | a rate row is parsed exactly from the bytes that lay it out |
| Codec.PutSubInt | internal/udpst/protocol.go:382-396 | the packed statistics at their offsets, other bytes untouched |
| Codec.SubIntExact | internal/udpst/protocol.go:398-414 | sub-interval statistics are parsed exactly from the bytes that lay them out |
| Codec.PutAuth | internal/udpst/protocol.go:106-114 | the authentication trailer at its offset, other bytes untouched |
| Codec.MarshalStatus | internal/udpst/protocol.go:452-518 | a 204 or 168 byte message with every field at its offset and zeros between |
| Codec.MarshalStatusLegacy | internal/udpst/protocol.go:490-518 | the legacy layout with the statistics moved around their pad bytes |
| Codec.StatusExact | internal/udpst/protocol.go:520-582 | bytes of either form parse to a message if and only if they lay it out and its action is valid |
| Codec.StatusRoundTrip | internal/udpst/protocol.go:452-582 | parse undoes marshal; the legacy form loses AuthMode, both CE counts and Modifiers and nothing else; an invalid action is refused |
| Codec.MarshalSetup | internal/udpst/protocol.go:162-176 | 56 bytes with every field at its offset |
| Codec.SetupExact | internal/udpst/protocol.go:137-160 | bytes parse to a setup message if and only if they lay it out |
| Codec.MarshalTestAct | internal/udpst/protocol.go:271-303 | 104 or 60 bytes with every field at its offset |
| Codec.TestActExact | internal/udpst/protocol.go:231-269 | bytes parse to an activation if and only if they lay it out; lengths 60 to 103 are the short form |
| Codec.MarshalLoadInto | internal/udpst/protocol.go:348-361 | the header at its offsets, the payload behind it untouched |
| Codec.LoadExact | internal/udpst/protocol.go:322-345 | bytes parse to a load header if and only if they lay it out |
| Sender.LoadSender.SendBurst | internal/udpst/session.go:556-625 | the wire grows by exactly the prefix of the burst that the kernel accepts, with the next consecutive numbers and the asked sizes; what it refuses gives its numbers back, whatever the pattern of partial writes |
| Sender.LoadSender.Flush | internal/udpst/session.go:614-624 | an accepted prefix is on the wire and the counter is rolled back to it |
| Sender.LoadSender.CatchUp | internal/udpst/session.go:672-680 | a transmitter's next tick and number of bursts are those of a turn, and the wire grows by exactly what the kernel accepts of that many bursts |
| Sender.LoadSender.Wake | internal/udpst/session.go:644-696 | one turn of the loop for both transmitters: ticks, bursts, datagrams sent by each and the wire, with nothing changed on a row that uses neither |
| Sender.LoadSender.SendLoop | internal/udpst/session.go:627-697 | a whole run of wakeups, each finding any row selected, ends in the state of the specified loop |
| Sender.LoadSender.SendStops | internal/udpst/session.go:633-642 | the stop phase adds single datagrams of the smallest size, as far as the kernel accepts them |
| Sender.SizeIsNominal | internal/udpst/session.go:570-610 | a fixed-size datagram is as large on the wire as the nominal rate counts it, IPv4 and IPv6 |
| Sender.SizeFits | internal/udpst/session.go:570-610 | every size holds the header and fits the buffer, random ones included |
| Sender.AnySizeDrawn | internal/udpst/session.go:588-610 | with the random bit every size from the smallest to the one asked for can come up |
| SenderRuns.WireConsecutive | internal/udpst/session.go:614-624 | over every run of the loop, whatever the kernel refuses, what is on the wire is numbered from 1 without a gap |
| SenderRuns.TakenIsOffered | internal/udpst/session.go:614-624 | a batch is accepted whole, or as far as the writes went before one failed |
| SenderRuns.StopsAreSmall | internal/udpst/session.go:633-642 | the stop phase adds one smallest datagram a round, if the kernel takes it |
| SenderRuns.WirePacing | internal/udpst/session.go:644-696 | for every run of wakeups and row changes, with any kernel: the datagrams transmitter 1 has put on the wire are at most the largest row burst times elapsed/100us + 1, those of transmitter 2 at most its largest burst times elapsed/1ms + 1, together they are the wire; at most twenty bursts of each per wakeup; no next tick is left in the past, and transmitter 1's never moves back |
| Pacing.MovesBackIff | internal/udpst/session.go:672-695 | a turn moves a transmitter's next tick back if and only if the row does not use it and the tick was more than 10 ms off, as transmitter 2's is after row 0 |
| Pacing.NoTickDropped | internal/udpst/session.go:674-680 | the cadence is kept if and only if the wakeup is at most twenty ticks late |
| Pacing.NoUndershoot | internal/udpst/session.go:525-528 | with wakeups less than twenty ticks late, every tick that has come has been sent |
| SenderRuns.NominalRateMet | internal/udpst/session.go:525-528 | over a run on row r in 1..1000 with wakeups less than twenty ticks late and a kernel that takes everything, the IP-layer bits on the wire are those of r Mbps since the first tick, never behind and at most 1 ms ahead |
| SenderRuns.RateAfterSwitch | internal/udpst/session.go:525-528 | the same from any state of the loop, as after a row change: behind by no more than the ticks were off |
| Upstream.Engine.OnLoad | internal/udpst/session.go:388-404 | the accounting follows the logged stream, and the time of the last datagram is kept |
| Upstream.Engine.Tick | internal/udpst/session.go:336-373 | a due status message is sent, every field specified: the closed trial's counters after the roll, the next number, the row the search moved to, the stop action once the test time is over, RxStopped after a second of silence, AuthMode and form; totals follow; messages are no more frequent than trial intervals, the next is due a trial interval on, and none comes later after the last than that and what it is overdue |
| Upstream.Engine.Finish | internal/udpst/session.go:409-410 | the final roll closes the partial sub-interval of the logged run |
| Upstream.SearchedIsRun | internal/udpst/session.go:348 | a search fed with measurements is one of the runs of SearchRuns |
| Downstream.Steering.OnDatagram | internal/udpst/session.go:445-492 | only a status message of the peer counts: it is echoed next, added to the totals and steers the search unless it ends the test; the row the send loop reads is that of the search, on the table |
| Downstream.SteeredByReport | internal/udpst/session.go:478-490 | for a client that accounts as this server does, its report, read off the wire in either form, leads to the decision on the datagrams that reached the client |
| Admission.Server.ReserveBandwidth | internal/udpst/server.go:361-373 | reserves if and only if the direction's budget allows |
| Admission.Server.ReleaseBandwidth | internal/udpst/server.go:375-383 | gives back to the direction it was taken from |
| Admission.Server.NewSessionSocket | internal/udpst/server.go:388-434 | the first free port in cyclic order, or nothing with the slot given back |
| Admission.Server.SessionDone | internal/udpst/server.go:436-440 | one session fewer |
| Admission.Server.Respond | internal/udpst/server.go:311-318 | exactly one of the two counters grows |
| Admission.Server.HandleSetup | internal/udpst/server.go:158-309 | the code is that of the first check that fails, through bandwidth, authentication mode and socket, and accepted if and only if admissible; a rejected setup leaves nothing but one more rejection |
| Admission.AcceptedIffAdmissible | internal/udpst/server.go:158-309 | that order of checks accepts exactly the admissible setups |
| Admission.RefusedForADefect | internal/udpst/server.go:172-267 | a setup is refused with a code that applies to it, and accepted if and only if none does |
| Admission.OnlyDefectNamed | internal/udpst/server.go:172-267 | a setup with exactly one defect is answered with the code of that defect |
| Admission.RevealsNothingIff | internal/udpst/server.go:170-199 | with keys, the answer to an unauthenticated peer is the same for every request, every allocation and every socket if and only if its mode is 1 |
| Admission.HidesLoadIff | internal/udpst/server.go:170-253 | and it is independent of what others hold if and only if its mode is 1 or there is no budget |
| Admission.AnswerFollowsLoad | internal/udpst/server.go:170-253 | a keyed server with a budget answers the same request of another mode with AuthReq or AuthInv when idle and CapExc when full |
| Admission.EachPortOnce | internal/udpst/server.go:405-411 | the search tries every port of the range exactly once, starting at nextPort |
| Admission.ScanFindsFirst | internal/udpst/server.go:409-424 | it fails only if every port is taken and otherwise returns the earliest free one, in range |
| Admission.RoundRobin | internal/udpst/server.go:415-419 | the next search starts behind the port found, so that the sessions go round the range |
| Admission.NextKeeps | internal/udpst/server.go:158-440 | every atomic step of the setup in flight or of any session keeps the books |
| Admission.AdmissionSafe | internal/udpst/server.go:26-29 | under every interleaving: allocation per direction = held by live sessions + in-flight reservation, within 0..MaxBandwidthMbps; sessions within MaxSessions; every setup answered once; all zero when nothing is live; nextPort in range |
| Admission.Drains | internal/udpst/session.go:67-74 | from any reachable state the setup in flight and then the sessions can end, and nothing is left allocated |
| Admission.UninterruptedSetup | internal/udpst/server.go:158-309 | the stepwise setup, when nothing interrupts it, does what HandleSetup does |
| EchoPlus.EchoServer.Handle | internal/tr143/echo.go:101-131 | counters and reply of one datagram; a disallowed source gets none but its drop report counts |
| EchoPlus.EchoServer.Respond | internal/tr143/echo.go:134-150 | offsets 4 to 19 hold the four fields, every other byte is returned unchanged, short packets entirely |
| EchoPlus.RespSNCountsReplies | internal/tr143/echo.go:134-150 | the k-th successful Echo Plus reply carries TestRespSN k modulo 2^32, failed sends using up no number |
| EchoPlus.FailuresCount | internal/tr143/echo.go:115-146 | the failure counter is drops plus failed sends plus whatever the reported drop count fell by, modulo 2^32 |
| EchoPlus.FailuresExact | internal/tr143/echo.go:115-123 | it is drops plus failed sends if and only if what the reported drop count fell by is a multiple of 2^32 in all; below 2^32, if and only if it never went down |
| EchoPlus.RestartCountedTwice | internal/tr143/echo.go:115-123 | after reports of 5, 0 and 5 drops the counter is 10 |
| EchoPlus.ReplySaysHeld | internal/tr143/echo.go:134-156 | replyTime - recvTime is the time from receipt to reply, to less than a microsecond |
| EchoPlus.ReceiptsApart | internal/tr143/echo.go:152-156 | over a run the receive timestamps of any two replies are as far apart as the receipts |
| EchoPlus.ReceivedCounts | internal/tr143/echo.go:125-129 | the received counter is the number of datagrams from allowed sources, modulo 2^64 |
| EndToEnd.RefusalsAreNotLosses | internal/udpst/session.go:617-622 | what a whole test puts on the wire, stop phase included, delivered in order, shows no loss, reordering or duplicate, across the 2^32 wrap too |
| EndToEnd.DropsCountedExactly | internal/udpst/accounting.go:123-131 | on a network that only drops, the loss counted is exactly what was dropped before the last arrival |
| EndToEnd.NetworkLossExact | internal/udpst/accounting.go:121-149 | on a network that drops, reorders and repeats within the window, the loss counted is exactly the datagrams sent, up to the highest number that arrived, that never arrived |
| EndToEnd.AnyRequestStaysOnTable | internal/udpst/session.go:533-543 | for every request, table flavour and run of trials the index is a row whose bursts fit the buffers |
| EndToEnd.TrialsMoveTheRate | internal/udpst/algo.go:76-107 | in search mode a good trial never lowers and a bad one never raises the nominal bit rate, and up to the 1 Gbps row a bad trial lowers it, except at row 0 |

## Left out

- Socket calls, read deadlines, batching and `sleepUntil`: their results are inputs.
- HMAC, key derivation and digests (`internal/udpst/auth.go`): the outcome of the checks is an input.
- The echo and timestamp fields of the load header: they do not touch numbering, pacing or sizes.
- Termination of the session loops: each valid datagram renews the watchdog.
- ECN CE counting on the receiver: the source does not implement it; the count is an input of the search.
- `logSummary`, `subIntervalMbps` and other floating point summaries.
- NullPDU and the response signing: they would only add easy members.
- `internal/tr143/http.go`, `internal/tr143/live.go`, `cmd/diagd`: HTTP plumbing and registries.
