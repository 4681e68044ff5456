# scetrace flow statistics in Dafny

scetrace reads TCP traffic from a capture file or a live interface and keeps
per-flow statistics about Some Congestion Experienced (SCE) and classic ECN
signalling: acknowledged bytes, round-trip times from sequence numbers and
from the Timestamps option (section 3 of RFC 7323), inter-packet gaps,
retransmitted and late segments, and counts of CE and SCE marks, CWR, ECE
and echoed SCE (the NS bit).

The repository holds three generations of the engine that turns decoded
packets into these statistics. All three share the decoded-packet record
(`Packets`) and the flow lookup. The engines are alternatives, not stages:

- `Capture` (capture.go) is the newest. Its store is `FlowData.Data`, with
  one `TCPFlowData` per bidirectional flow holding two `TCPOneWayData`
  records, one per direction.
- `Parse` (parse.go) is the earlier engine over the same store. It reads the
  timestamps option only on ACKs and tracks late segments by a plain
  comparison of sequence numbers. It has no SYN handling and no
  retransmission tracking.
- `Recording` (main.go, `Recorder.recordFromChannel`) is the oldest. Its
  `OneWayStats` records keep RTT totals and counts instead of accumulators.

The Welford accumulators of data.go are modelled in `FlowData`. The earlier
duration accumulator of stats.go, also called `DurationData` there, is the class
`Stats.DurationStats`.

## How the model is built

- **Per-packet updates.** Each block of a packet loop body is a function from
  the old record to the new one. Its contract says which fields move, how
  they move, and that no other field changes. A block made of smaller blocks
  (`Capture.Mark`, `Capture.Finish`, ...) states its fields through theirs,
  and lemmas about `Segment` state the same fields against the record as it
  was before the segment.
- **Statement forms.** Go writes each block as a run of assignments to
  fields reached through a pointer. Beside each block's function there is a
  method (`OneWay.HandleAcks`, `Capture.DetectReordering`,
  `Recording.TallySegment`, ...) that takes the record as a value, makes the
  same assignments in the source's order, and returns the new record. Its
  contract says that the result equals the function. The function is what
  `Segment` composes and what the lemmas are about. The method shows that
  the source's sequence of statements computes it.
- **Segments and packets.** A function `Segment` composes these blocks into
  the update of a flow by one segment. `FlowStore.Step` and `FlowStore.Run`
  (and `Recording.Step`/`Run`) lift it to one packet and to a sequence of
  packets.
- **Imperative loops.** The loops themselves are methods over the mutable
  store (`FlowData.Data`, `Recording.Recorder`). Each one is proved to
  compute `Step` and `Run`.
- **Lemmas.** These relate the functions to what scetrace promises:
  - the flow tables never hold a key together with its reverse;
  - flow indices are exactly `0 .. n-1`, in order of creation;
  - every RTT sample is taken at most once, at the right key;
  - acknowledged bytes telescope;
  - SCE runs add up to the SCE count;
  - the counters of a direction stay in their natural relations;
  - the accumulators hold the count, the true extremes, and the exact mean
    and sum of squared deviations of what was pushed.

**`uint32` arithmetic.** Sequence, acknowledgement and TSval numbers are
`uint32` in the source. Their differences and sums wrap, and the model
writes this out (`Packets.Add32`, `Packets.Sub32`). The modular
comparisons of capture.go (`x - y < MaxUint32/2`) become
`Packets.AtOrAfter` and `Packets.Before`.

**Data-bearing IPv4 segments.** For IPv4, the engines disagree on whether a
segment carries data:
- capture.go converts the possibly negative length difference to
  `uint32`, so headers longer than the packet count as data;
- parse.go and main.go compare the signed difference.

`Parse.DataBearingVersusCapture` states both the agreement and the
disagreement.

## Model

| member | source | states |
|---|---|---|
| Packets.ToUint32 | capture.go:219 | Go's `uint32(int)` conversion: the result agrees with its argument modulo 2^32, and is the argument itself when it already fits |
| Packets.Add32 | capture.go:185 | `uint32` addition wraps at most once: the result is the true sum or the sum less 2^32 |
| Packets.Sub32 | capture.go:194 | the `uint32` difference is the forward distance from `b` to `a`: adding it to `b` gives `a`; it is `a - b` or `a - b + 2^32` |
| Packets.SubAfterAdd | capture.go:237-238 | the forward distance from `a` to `a + d` (wrapped) is `d` |
| Packets.SubOfReduced | capture.go:194 | the wrapped difference of two numbers reduced modulo 2^32 is their true difference modulo 2^32 |
| Packets.AtOrAfter | capture.go:236 | the retransmission test: the forward distance from the expected sequence number is below half the space; `AtOrAfterUnwrapped` and `AdvanceIsAfter` state that this means "at or after", across the wrap too |
| Packets.Before | capture.go:242 | the late test: the forward distance from the previous TSval exceeds half the space; `AtOrAfterUnwrapped` and `AdvanceIsAfter` state that this means "strictly before", across the wrap too |
| Packets.AtOrAfterUnwrapped | capture.go:237-245 | for unwrapped numbers less than half the sequence space apart, the modular tests "at or after" and "before" agree with the ordinary comparisons |
| Packets.AdvanceIsAfter | capture.go:236-243 | a number advanced by less than half the space, across the wrap or not, lies at or after the old one and not before it, and the old one lies before it and not at or after it |
| Packets.ECNField | capture.go:268 | the ECN codepoint is the low two bits of the TOS byte: below 4 and congruent to it modulo 4 |
| Samples.MinOf | data.go:131-142 | reference minimum of a nonempty sample sequence: one of the samples and at most every sample |
| Samples.MaxOf | data.go:131-142 | reference maximum: one of the samples and at least every sample |
| Samples.MinOfR | data.go:222-233 | the same for `float64` samples |
| Samples.MaxOfR | data.go:222-233 | the same for `float64` samples |
| Samples.WelfordStep | data.go:143-147 | one Welford update keeps `mean * n == sum` and `s == sum of squares - n * mean^2` |
| Samples.WelfordSnoc | data.go:143-147 | the Welford update for a new sample turns the invariant for `xs` into the invariant for `xs + [x]` |
| Samples.TwoPass | data.go:158-163 | under the Welford invariant, `s` is the sum of squared deviations from the mean |
| Samples.WelfordIsTwoPass | data.go:154-163 | for a nonempty stream, `mean` is the arithmetic mean and `s` the two-pass sum of squared deviations |
| FlowTable.Locate | capture.go:112-128 | a packet works on its own key when that is stored or when neither orientation is (direction up); it works on the reverse key exactly when only the reverse is stored (down); a new entry is created exactly when neither is stored; a found key is in the table |
| FlowTable.Current | capture.go:112-127 | the flow a packet works on is the stored one under the located key, or the new flow when one is created |
| FlowTable.StoreKeepsNoReversePair | capture.go:112-124 | storing at the located key never leaves a key and its reverse both in the table |
| FlowTable.OrientationAfterCreate | capture.go:112-127 | once the first packet has created a flow, later packets in its direction find it up and packets in the other direction find it down, and neither creates another |
| FlowTable.PlaceKeepsTable | capture.go:112-124 | writing the updated flow back keeps the table invariant: no reverse pairs, endpoints matching keys, distinct indices below the counter; the counter and the table size grow by one exactly when an entry is created |
| FlowTable.PlaceKeepsApart | capture.go:107-150 | a new flow indexed above every flow of the other table keeps indices distinct across the IPv4 and IPv6 tables |
| FlowData.DurationData.Push | data.go:131-148 | the count grows by one; the first sample sets both extremes; later extremes only widen, each being the old extreme or the sample, which lies between them |
| FlowData.DurationData.Variance | data.go:158-163 | 0 for fewer than two samples; with `VarianceIsTwoPass`, the sample variance otherwise |
| FlowData.PushSummarizes | data.go:131-148 | pushing `d` into a summary of `xs` gives a summary of `xs + [d]`: the count, the true extremes and the Welford invariant |
| FlowData.PushAllSummarizes | data.go:131-148 | from the zero value, any sequence of pushes leaves the count, the true minimum and maximum, and exact running sums of the samples |
| FlowData.DurationData.IsZero | data.go:150-152 | no sample was pushed; `IsZeroIffNoSamples` states that it holds exactly when nothing was pushed |
| FlowData.IsZeroIffNoSamples | data.go:150-152 | `IsZero` holds exactly when nothing was pushed, even when the samples pushed were zero |
| FlowData.VarianceIsTwoPass | data.go:154-163 | with more than one sample, `mean` is the arithmetic mean and `Variance` is the sum of squared deviations divided by `N - 1` |
| FlowData.Float64Data.Push | data.go:222-239 | as for durations: the count grows by one, the extremes bracket the sample and only widen |
| FlowData.Float64Data.Variance | data.go:249-254 | 0 for fewer than two samples |
| FlowData.PushSummarizesF | data.go:222-239 | a push extends a summary of `xs` to a summary of `xs + [f]` |
| FlowData.PushAllSummarizesF | data.go:222-239 | any sequence of pushes from the zero value summarizes the samples exactly |
| FlowData.Float64Data.IsZero | data.go:241-243 | no sample was pushed; `IsZeroIffNoSamplesF` states that it holds exactly when nothing was pushed |
| FlowData.IsZeroIffNoSamplesF | data.go:241-243 | `IsZero` holds exactly when nothing was pushed |
| FlowData.VarianceIsTwoPassF | data.go:245-254 | `mean` is the arithmetic mean and `Variance` the sample variance |
| FlowData.TCP4FlowKey.Reverse | data.go:106-108 | the reverse key swaps the source and destination addresses and ports |
| FlowData.TCP6FlowKey.Reverse | data.go:117-119 | the same for IPv6 keys |
| FlowData.ReverseInvolutions | data.go:106-119 | reversing a key twice gives it back, for both key types |
| FlowData.ReverseFixedPoints | data.go:106-119 | a key is its own reverse exactly when both of its endpoints are the same address and port |
| FlowData.NewTCPOneWayData | data.go:80-85 | a new record has empty send-time tables, every counter at zero, no ack, packet or SCE time, accumulators that summarize no samples, and no ACK seen |
| FlowData.Data.constructor | data.go:23-28 | a new store has zero IP counters, no capture times and empty flow tables |
| OneWay.Split | capture.go:153-160 | an up packet works on `Up` and answers `Down`; a down packet the other way round |
| OneWay.Join | capture.go:153-160 | writing both records back puts them where `Split` finds them and changes nothing else in the flow |
| OneWay.JoinSplit | capture.go:153-160 | writing back unchanged records leaves the flow unchanged |
| OneWay.Consume | capture.go:170-173 | matching a pending key removes its send time and pushes one RTT sample `t - sent`; an unknown key changes nothing; afterwards the key is not pending |
| OneWay.ConsumeOnce | capture.go:170-173 | a send time yields at most one RTT sample: matching the same key again changes nothing |
| OneWay.SendTSVal | capture.go:169 | the segment's TSval is recorded with its send time, overwriting an earlier one; nothing else changes |
| OneWay.EchoTSEcr | capture.go:170-173 | the echoed TSecr is matched against the reverse direction's TSvals into `TSValRTT`; nothing else of that record changes |
| OneWay.Timestamps | capture.go:162-176 | without the option nothing changes; with it, the TSval is recorded on the packet's own side and the TSecr matched on the reverse side |
| OneWay.RepeatedTSEcrYieldsNothing | capture.go:170-173 | echoing the same TSecr again adds no sample |
| OneWay.Ack | capture.go:191-204 | every ACK is counted. The first one starts the ack clock and acknowledges nothing. Each later one acknowledges the forward distance from the previous ack number, adds it to `AckedBytes`, and moves `LastAckTime` only when it is positive. The ack number is remembered, and no field outside the ack clock changes |
| OneWay.DuplicateAckAcksNothing | capture.go:193-198 | repeating the previous ack number acknowledges no bytes and does not move `LastAckTime` |
| OneWay.SeqRTTKeyIsPriorAck | capture.go:206-207 | the key `ack - ackedBytes` looked up for a sequence RTT is the previous ack number |
| OneWay.AckedBytesTelescope | capture.go:193-204 | over any run of ACKs, `AckedBytes` grows by the distance from the ack number before the run to the last one, modulo 2^32 |
| OneWay.AckedBytesExact | capture.go:193-204 | for non-decreasing ack numbers that do not wrap, `AckedBytes` grows by exactly the last minus the first |
| OneWay.MatchSeq | capture.go:206-212 | when bytes were acknowledged, the reverse direction's send time at `ack - ackedBytes` is consumed into `SeqRTT`; otherwise the reverse record is unchanged |
| OneWay.DuplicateAckNoSample | capture.go:206-212 | a duplicate ACK takes no sequence RTT sample |
| OneWay.AckMatchesPriorAck | capture.go:206-212 | an ACK that advances matches the segment sent at the previous ack number: `SeqRTT` gains `t` minus its send time and the entry is removed |
| OneWay.Acknowledge | capture.go:189-213 | a segment without ACK changes nothing and acknowledges 0 bytes; with ACK the own record takes `Ack` and the reverse one `MatchSeq`; only ack fields of the own record and only send times and RTTs of the reverse record change |
| OneWay.AcknowledgeStartsClock | capture.go:191-203 | an ACK has been seen after the step exactly when one was seen before or this segment is one, and then both ack times are set |
| OneWay.RecordData | capture.go:220-223 | a data-bearing segment records its sequence number's send time and counts as a data segment; any other leaves the record unchanged |
| OneWay.RecordIPG | capture.go:249-253 | the gap since the previous packet, when there was one, is pushed into `IPG`, and this packet becomes the previous one |
| OneWay.SCEStep | capture.go:272-282 | an SCE mark counts, extends the current run and pushes the gap since the previous mark; an unmarked segment finishes a nonempty run by pushing its length and resetting it |
| OneWay.SCERunCounts | capture.go:272-278 | `k` consecutive marks extend the run and the SCE count by `k` and finish no run |
| OneWay.SCERunLength | capture.go:279-282 | `k` marks followed by an unmarked segment push exactly one run of length `k` and reset the run |
| OneWay.SCEStepBalanced | capture.go:272-282 | the SCE count stays equal to the total length of the finished runs plus the current run, and `SCERunLength` summarizes exactly the finished runs |
| OneWay.FlagCounts | capture.go:257-271 | CWR, ECE and NS are each counted; NS also credits the acknowledged bytes to `ESCEAckedBytes`; a CE codepoint is counted; nothing else changes |
| OneWay.Congestion | capture.go:256-283 | the flag counts together with the SCE step, and nothing else |
| OneWay.CEAndSCEExclusive | capture.go:268-273 | one segment raises the CE and SCE counts by at most one together |
| OneWay.Tail | capture.go:249-286 | every segment records its gap and is counted once; congestion signals are counted only for segments without SYN, FIN or RST |
| OneWay.CongestionIgnoresGap | capture.go:249-283 | the gap step and the congestion step commute |
| OneWay.NewRecordConsistent | data.go:80-85 | a new record satisfies the counter relations of `Consistent` |
| OneWay.TailKeepsConsistent | capture.go:249-286 | the tail of a segment's update restores the counter relations for a record whose segment is not yet counted |
| OneWay.ReadTimestamps | capture.go:162-176 | the block, statement by statement, computes `Timestamps` and returns the TSval, 0 without the option |
| OneWay.HandleAcks | capture.go:189-213 | the block, statement by statement, computes `Acknowledge` |
| OneWay.RecordDataSegment | capture.go:218-231 | the block, statement by statement, computes `RecordData` |
| OneWay.RecordGap | capture.go:249-253 | the block, statement by statement, computes `RecordIPG` |
| OneWay.MarkSCE | capture.go:272-282 | the block, statement by statement, computes `SCEStep` |
| OneWay.CountFlags | capture.go:256-271 | the block, statement by statement, computes `FlagCounts` |
| OneWay.CountSignals | capture.go:255-283 | the block, statement by statement, computes `Congestion` |
| OneWay.RecordTail | capture.go:249-286 | the block, statement by statement, computes `Tail` |
| FlowStore.EmptyStateValid | data.go:23-28 | an empty store with flow counter 0 satisfies the store invariant |
| FlowStore.Account | capture.go:80-95 | every packet is counted and adds its IP length (IPv6: payload plus the 40-byte header); only the first packet sets the start time, each sets the end time; the flow tables are untouched |
| FlowStore.AccountAllFromEmpty | capture.go:80-95 | from zero counters, `n` packets give count `n`, the sum of their lengths, the first packet's time as start and the last one's as end |
| FlowStore.NewFlow | capture.go:114-122 | a new flow gets the counter as index, the packet's endpoints, no ECN negotiation and two new records |
| FlowStore.Key4 | capture.go:107-111 | the key holds the packet's source and destination addresses and ports |
| FlowStore.Key6 | capture.go:130-133 | the same for IPv6 |
| FlowStore.Place4 | capture.go:112-128 | the flow is written under the packet's key when stored, under the reverse key when only that is stored, otherwise under the packet's key with the counter advanced; the rest of the store is unchanged |
| FlowStore.Place6 | capture.go:134-150 | the same for IPv6 |
| FlowStore.Place4KeepsValid | capture.go:112-128 | writing back a flow that keeps its index and endpoints keeps the store invariant |
| FlowStore.Place6KeepsValid | capture.go:134-150 | the same for IPv6 |
| FlowStore.AccountKeepsValid | capture.go:80-95 | accounting keeps the store invariant |
| FlowStore.Step | capture.go:80-286 | one decoded packet of `Capture` (and of `Parse`, parse.go:76-250): it is accounted, then its flow is found under its key or the reverse key or created with the next index; `StepAccounts`, `Step4Resolves`, `Step6Resolves`, `StepKeepsValid` and `StepKeepsConsistent` state what it does |
| FlowStore.Run | capture.go:46-290 | the store after a sequence of packets; `RunKeepsInvariants`, `RunAccounts` and `RunFromEmpty` state what it does |
| FlowStore.StepAccounts | capture.go:80-101 | every packet is accounted; a packet without TCP changes nothing else |
| FlowStore.Step4Resolves | capture.go:107-128 | an IPv4 TCP packet updates its stored flow up, or the reverse-keyed flow down, or creates a flow indexed by the counter, advances the counter and updates it up; the IPv6 table is untouched |
| FlowStore.Step6Resolves | capture.go:129-150 | the same for IPv6 |
| FlowStore.StepKeepsValid | capture.go:103-151 | for a segment update that keeps index and endpoints, a packet keeps the store invariant: no key stored with its reverse, endpoints matching keys, indices distinct across both tables and exactly `0 .. counter-1` |
| FlowStore.StepKeepsConsistent | capture.go:153-286 | for a segment update that keeps the counter relations, a packet keeps them in every flow |
| FlowStore.RunKeepsInvariants | capture.go:46-290 | both invariants hold after any sequence of packets |
| FlowStore.RunAccounts | capture.go:80-95 | the counters and times after a run are those of the accounting alone |
| FlowStore.RunFromEmpty | capture.go:46-290 | from an empty store: the invariants hold, the packet count is the number of packets, the bytes are their sum, and start and end are the first and last packet's times |
| FlowStore.AccountPacket | capture.go:80-95 | the in-place update computes `Account` |
| FlowStore.Lookup4 | capture.go:107-128 | returns the located key and direction and the stored or new flow, and advances the counter exactly when a flow is created |
| FlowStore.Lookup6 | capture.go:129-150 | the same for IPv6 |
| Capture.SegLen | capture.go:215-233 | for IPv6 the segment length is the payload length field |
| Capture.DataBearingIff | capture.go:217-233 | an IPv4 segment counts as data exactly when its header lengths differ from its total length (so a negative difference counts); an IPv6 one exactly when its payload length is positive |
| Capture.SynFlags | capture.go:179-184 | a SYN-ACK records whether ECN was accepted (ECE); a bare SYN whether it was requested (ECE and CWR); nothing else of the flow changes |
| Capture.TrackSequence | capture.go:236-247 | a segment at or after the expected sequence number moves the expectation past its payload; an earlier one counts as retransmitted; a TSval before the previous one counts as late; the TSval is remembered |
| Capture.InOrderSegmentAdvances | capture.go:237-238 | a segment at the expected sequence number advances the expectation by its length and is no retransmission |
| Capture.RetransmissionIffBefore | capture.go:237-241 | for unwrapped sequence numbers within half the space, a segment counts as retransmitted exactly when it starts before the expected number |
| Capture.LateIffEarlierTSVal | capture.go:243-245 | for unwrapped TSvals within half the space, a segment counts as late exactly when its TSval is earlier than the previous one |
| Capture.Mark | capture.go:215-247 | data-bearing segments are recorded; a segment without SYN gets the expected sequence number, retransmission and late counts and previous TSval of `TrackSequence`; a SYN changes none of them |
| Capture.Open | capture.go:162-187 | the TSval's send time is recorded in the own record and the TSecr matched against the reverse one, as `Timestamps`; a SYN sets the expected sequence number to `Seq + 1` and the previous TSval to its own, any other segment keeps both |
| Capture.Segment | capture.go:153-286 | a segment keeps the flow's index and endpoints, and changes its ECN negotiation only on a SYN |
| Capture.Finish | capture.go:215-286 | the tail of a segment's update of its own record counts the segment once, records it as data exactly when its segment length is positive, applies `TrackSequence` unless it is a SYN, records the gap, and counts the congestion signals (flags, CE, and the SCE count, gap and run) exactly when it is not a SYN, FIN or RST |
| Capture.SegmentCountsOnce | capture.go:285-286 | a segment is counted once, in its own direction; the reverse record changes only in send times and RTTs |
| Capture.SynSetsExpectations | capture.go:178-187 | after a SYN, the expected sequence number is `Seq + 1`, the previous TSval is the SYN's, and the flow records the ECN negotiation |
| Capture.DataSegmentRecorded | capture.go:215-233 | a segment is counted as data, and its send time recorded, exactly when its length is positive |
| Capture.ControlSegmentsCountNoSignals | capture.go:255-283 | SYN, FIN and RST segments change none of the congestion counters or SCE runs |
| Capture.SegmentSignals | capture.go:255-283 | a segment other than a SYN, FIN or RST counts its CWR, ECE and NS flags (NS with the bytes its ACK acknowledged) and a CE mark, and an SCE mark with its gap and run as `SCEStep` does |
| Capture.SegmentTracksSequence | capture.go:235-247 | after a segment without SYN, the expected sequence number, the retransmission and late counts and the previous TSval are those `TrackSequence` computes from the record before the segment |
| Capture.SegmentTimestamps | capture.go:162-176 | after any segment, the own record holds its TSval's send time when it carries the option, and the reverse record's TSval table and RTT accumulator are those of the TSecr match |
| Capture.SegmentGap | capture.go:249-253 | every segment pushes its gap from the previous packet of its direction and becomes the previous packet |
| Capture.SegmentKeepsConsistent | capture.go:153-286 | a segment keeps the counter relations of both records of a flow |
| Capture.SegmentKeepsInvariants | capture.go:153-286 | `Segment` keeps identities and counter relations, as the store-level lemmas require |
| Capture.DetectReordering | capture.go:235-247 | the block, statement by statement, computes `TrackSequence` |
| Capture.MarkSegment | capture.go:215-247 | the block, statement by statement, computes `Mark` and returns the TOS or traffic class |
| Capture.UpdateSegment | capture.go:153-286 | the in-place flow update computes `Segment` |
| Capture.CapturePacket | capture.go:80-286 | one packet applied to the store in place is `FlowStore.Step` with `Segment` |
| Capture.Capture | capture.go:46-290 | the loop computes `FlowStore.Run`; from a new store, the store invariant and the counter relations hold and the packet count is the number of packets |
| Parse.DataBearing | parse.go:199-213 | the signed data-bearing test; `DataBearingIff`, `DataBearingVersusCapture` and `Parse.DataSegmentRecorded` state what it means |
| Parse.DataBearingIff | parse.go:199-213 | an IPv4 segment carries data exactly when its total length exceeds its header lengths; an IPv6 one exactly when its payload length is positive |
| Parse.DataBearingVersusCapture | parse.go:199-213 | parse.go and capture.go agree on data-bearing segments except for IPv4 headers longer than the packet, which only capture.go counts |
| Parse.TrackOrder | parse.go:194-197 | a sequence number below the previous one counts as late, by plain comparison; it is remembered |
| Parse.LateCountsDescents | parse.go:194-197 | over any run of segments, the late count grows by the number of descents in their sequence numbers |
| Parse.AscendingRunHasNoDescents | parse.go:194-197 | sequence numbers that never descend count no late segment |
| Parse.WrapCountsInOrderSegmentLate | parse.go:194-197 | a segment that follows the previous one across the 2^32 wrap, in order by the modular comparison, is still counted late |
| Parse.Mark | parse.go:194-213 | the order check and the data recording; each counter grows by at most one |
| Parse.Answer | parse.go:154-192 | an ACK goes through the acknowledgement and then the timestamps option; a segment without ACK changes neither record |
| Parse.Segment | parse.go:146-249 | a segment keeps the flow's identity and never changes its ECN negotiation |
| Parse.AnswerFrames | parse.go:154-192 | the answer changes only ack fields and send times of the own record, and only send times and RTTs of the reverse one |
| Parse.SegmentCountsOnce | parse.go:249 | a segment is counted once, in its own direction |
| Parse.TimestampsOnlyOnAcks | parse.go:178-191 | without ACK the timestamps option is ignored; with ACK its TSval is recorded |
| Parse.LateIffBelowPrior | parse.go:194-197 | a segment counts as late exactly when its sequence number is below the previous one |
| Parse.DataSegmentRecorded | parse.go:199-213 | a segment is counted as data, and its send time recorded, exactly when it carries data |
| Parse.OwnRecordKeepsConsistent | parse.go:154-249 | the own record keeps the counter relations |
| Parse.SegmentKeepsConsistent | parse.go:146-249 | a segment keeps the counter relations of both records |
| Parse.SegmentKeepsInvariants | parse.go:146-249 | `Segment` keeps identities and counter relations |
| Parse.DetectLate | parse.go:194-197 | the block, statement by statement, computes `TrackOrder` |
| Parse.MarkSegment | parse.go:194-213 | the block, statement by statement, computes `Mark` and returns the TOS or traffic class |
| Parse.UpdateSegment | parse.go:146-249 | the in-place flow update computes `Segment` |
| Parse.ParsePacket | parse.go:76-249 | one packet applied to the store in place is `FlowStore.Step` with `Segment` |
| Parse.Parse | parse.go:45-251 | the loop computes `FlowStore.Run`; from a new store, the store invariant and the counter relations hold and the packet count is the number of packets |
| Recording.IP4FlowKey.Reverse | main.go:44-46 | the reverse key swaps the source and destination addresses and ports |
| Recording.IP6FlowKey.Reverse | main.go:55-57 | the same for IPv6 |
| Recording.KeyReverseInvolutions | main.go:44-57 | reversing a key twice gives it back |
| Recording.NewOneWayStats | main.go:91-96 | a new record has empty send-time tables, zero counters and totals, and no ack clock |
| Recording.NewFlow | main.go:230-238 | a new flow gets the flow counter as index, the packet's endpoints and two new records |
| Recording.Split | main.go:271-277 | an up packet works on `Up` and answers `Down`; a down packet the other way round |
| Recording.Join | main.go:271-277 | the records are written back where `Split` finds them, and nothing else changes |
| Recording.Ack | main.go:283-294 | the first ACK starts the ack clock; each later one acknowledges the forward distance from the previous ack number and moves `LastAckTime` only when that is positive; only ack fields change |
| Recording.MatchSeq | main.go:296-303 | when bytes were acknowledged and a send time is recorded at `ack - ackedBytes`, its RTT is added to the total, counted and removed; otherwise nothing changes |
| Recording.EchoTimestamps | main.go:305-318 | the TSval's send time is recorded on the own side; an echoed TSecr found on the reverse side adds its RTT to the total, is counted and removed |
| Recording.Acknowledge | main.go:281-319 | a segment without ACK changes nothing and acknowledges 0 bytes; with ACK the own record is `Ack`'s, plus the TSval's send time when the option is present, and the reverse record takes the seq-RTT match at `Ack - ackedBytes` and then the TSecr match; only the ack fields and TSvals of the own record and the correlator fields of the reverse one change |
| Recording.Payload | main.go:321-333 | a data-bearing segment records its send time; every segment adds its IP length field to `IPBytes`; nothing else changes |
| Recording.HasPayload | main.go:321-333 | the signed payload test; `PayloadRecorded` states that a send time is recorded exactly when it holds |
| Recording.Signals | main.go:335-355 | the segment is counted as a data packet with its CWR, ECE and NS flags, NS crediting the acknowledged bytes, and its SCE or CE codepoint; nothing else changes |
| Recording.MarkECN | main.go:347-354 | an SCE codepoint counts as SCE, a CE codepoint as CE, others as neither |
| Recording.Tally | main.go:335-357 | every segment is counted as a packet; only segments without SYN, FIN or RST count signals |
| Recording.Segment | main.go:271-357 | a segment keeps the flow's index and endpoints |
| Recording.Finish | main.go:321-357 | the payload and tally steps count the packet and its IP length field, count a data packet exactly when signals count, record the send time exactly when the segment carries data, and count the CWR, ECE and NS flags (NS with the acknowledged bytes) and the SCE or CE mark exactly when the segment is not a SYN, FIN or RST |
| Recording.SeqSampleAtPriorAck | main.go:296-303 | an ACK that advances consumes the send time recorded at the previous ack number; a duplicate ACK consumes nothing |
| Recording.RepeatedTSEcrAddsNothing | main.go:311-315 | an echoed TSecr is matched at most once |
| Recording.SegmentCounts | main.go:321-357 | a segment adds one packet and its IP length to its own direction, one data packet exactly when it counts signals, and touches only send times and RTT totals of the reverse direction |
| Recording.SegmentSignals | main.go:335-355 | a segment other than a SYN, FIN or RST counts its CWR, ECE and NS flags (NS with the bytes its ACK acknowledged), SCE for ECN codepoint 1 and CE for codepoint 3; a SYN, FIN or RST counts none of them |
| Recording.TimestampsOnlyOnAcks | main.go:282-319 | without ACK neither the TSvals nor the reverse record change |
| Recording.SegmentAcks | main.go:281-319 | after a segment, the own record's ack clock, prior ack, acknowledged bytes and TSvals are those the ACK handling computes (unchanged without ACK), and the reverse record carries exactly the samples the ACK matched |
| Recording.PayloadRecorded | main.go:321-333 | a segment's send time is recorded exactly when it carries data |
| Recording.AcknowledgeCredits | main.go:283-294 | after the ACK handling the acknowledged bytes are already in `AckedBytes`, so crediting them to `ESCEAckedBytes` keeps it below |
| Recording.FinishKeepsConsistent | main.go:321-357 | the payload and tally steps restore the counter relations |
| Recording.SegmentKeepsConsistent | main.go:271-357 | a segment keeps the counter relations of both records |
| Recording.Key4 | main.go:224-227 | the key holds the packet's source and destination addresses and ports |
| Recording.Key6 | main.go:246-249 | the same for IPv6 |
| Recording.Step4 | main.go:222-243 | an IPv4 segment updates the flow under its key, else under the reverse key, else a new flow with the next index; `Step4Resolves`, `Step4KeepsValid` and `Step4KeepsConsistent` state what it does |
| Recording.Step6 | main.go:244-266 | the same for IPv6; `Step6Resolves`, `Step6KeepsValid` and `Step6KeepsConsistent` state what it does |
| Recording.Step | main.go:209-358 | one decoded packet: it is counted, then a TCP segment updates its flow; `StepCountsPacket`, `StepKeepsValid` and `StepKeepsConsistent` state what it does |
| Recording.Run | main.go:153-360 | the recorder after a sequence of packets; `RunFromEmpty` states what it does |
| Recording.StepCountsPacket | main.go:209-215 | every packet is counted; a packet without TCP changes nothing else |
| Recording.Step4Resolves | main.go:223-244 | an IPv4 TCP packet updates its stored flow up, or the reverse-keyed flow down, or creates a flow indexed by the counter and advances it; the IPv6 table is untouched |
| Recording.Step6Resolves | main.go:245-269 | the same for IPv6 |
| Recording.Step4KeepsValid | main.go:223-244 | an IPv4 TCP packet keeps the table invariant |
| Recording.Step6KeepsValid | main.go:245-269 | an IPv6 TCP packet keeps the table invariant |
| Recording.StepKeepsValid | main.go:209-269 | every packet keeps the table invariant: no key stored with its reverse, endpoints matching keys, indices distinct across both tables and exactly `0 .. FlowIndex-1` |
| Recording.Step4KeepsConsistent | main.go:223-357 | an IPv4 TCP packet keeps the counter relations of every flow |
| Recording.Step6KeepsConsistent | main.go:245-357 | an IPv6 TCP packet keeps the counter relations of every flow |
| Recording.StepKeepsConsistent | main.go:209-358 | every packet keeps the counter relations of every flow |
| Recording.RunFromEmpty | main.go:174-359 | from an empty recorder, the table invariant and the counter relations hold after any packets, and every packet is counted |
| Recording.Recorder.constructor | main.go:590-594 | a new recorder has empty flow tables and zero counters |
| Recording.Recorder.RecordPacket | main.go:209-358 | one packet applied to the recorder in place is `Step` |
| Recording.Recorder.RecordFromChannel | main.go:153-360 | the loop computes `Run`; from a new recorder, the table invariant and the counter relations hold and every packet is counted |
| Recording.HandleAck | main.go:282-303 | the block, statement by statement, computes `Ack` and `MatchSeq` |
| Recording.ReadTimestamps | main.go:305-318 | the block, statement by statement, computes `EchoTimestamps` |
| Recording.RecordPayload | main.go:321-333 | the block, statement by statement, computes `Payload` and returns the TOS or traffic class |
| Recording.CountSignals | main.go:335-355 | the block, statement by statement, computes `Signals` |
| Recording.CountMarks | main.go:347-354 | the in-place switch computes `MarkECN` |
| Recording.TallySegment | main.go:335-357 | the block, statement by statement, computes `Tally` |
| Recording.UpdateFlow | main.go:271-357 | the in-place flow update computes `Segment` |
| Stats.Truncate | stats.go:42-44 | Go's float-to-integer conversion truncates toward zero: the result is within one of its argument, on the side of zero |
| Stats.PushStep | stats.go:19-36 | the extremes update and Welford's step turn a summary of `xs` into a summary of `xs + [d]` |
| Stats.DurationStats.constructor | stats.go:10-17 | the zero value summarizes no samples |
| Stats.DurationStats.Push | stats.go:19-36 | the fields still summarize the samples, now with `d` appended: count, true extremes, exact running sums |
| Stats.DurationStats.IsZero | stats.go:38-40 | holds exactly when no sample was pushed |
| Stats.DurationStats.Mean | stats.go:42-44 | 0 for no samples, otherwise the arithmetic mean of the samples, truncated toward zero |
| Stats.DurationStats.Variance | stats.go:46-51 | 0 for fewer than two samples, otherwise the sum of squared deviations from the mean divided by `N - 1` |
| Stats.MeanOfSamples | stats.go:31-34 | the running `mean` is the arithmetic mean of the samples |
| Stats.VarianceOfSamples | stats.go:31-35 | the running `s` is the sum of squared deviations of the samples from their mean |
| Stats.ExtremesBracketSamples | stats.go:20-30 | once there is a sample, `Min <= Max`, every sample lies between them and both are samples |

## Left out

- Packet decoding (gopacket's layer parser, link layers, TCP option parsing beyond the first 10-byte timestamps option) is not modelled. The engines receive decoded `Packets.Packet` values, and frames that fail to decode never reach them.
- The logging and coalescing of decode errors (capture.go:48-63, parse.go:47-61, main.go:175-190) is left out because it only writes to the log.
- The layer-type scan that decides IPv4/IPv6 and TCP is replaced by the shape of `Packets.Packet`. Non-IP frames that decode are not represented.
- IPv6 extension headers are not separated out. `Length` is the fixed header's payload length, as in the source.
- Locks, goroutines and channels are left out: `Lock`/`Unlock`, the channel that feeds the loop, and `Record`/`drainToChannel` in main.go. The loops take a sequence of packets instead.
- pcap.go (opening the handle, `PCAPStats`) and result.go (`NewResult`, JSON output and the derived percentages, means and throughputs) are not part of this model.
- Wall-clock times are left out: `ParseStartTime`/`ParseEndTime` in data.go, and `FirstPacketTime`, `LastPacketTime`, `RecordStartTime` and `RecordElapsed` in main.go:192-196.
- `Stddev`, `Burstiness` and `MarshalJSON` of the accumulators are left out because they need a square root or JSON encoding. `float64` arithmetic is modelled as exact real arithmetic, so rounding is not captured.
- `FlowData.DurationData.Variance`: stated only for fewer than two samples in its own contract, because the variance of more samples is stated by `FlowData.VarianceIsTwoPass` against the samples pushed.
- `FlowData.Float64Data.Variance`: likewise, stated in full by `FlowData.VarianceIsTwoPassF`.
- The `Mean` methods of data.go (data.go:154-156, 245-247) return the `mean` field. `FlowData.VarianceIsTwoPass` states what that field holds, and `Stats.DurationStats.Mean` models the truncation.
- The 64-bit counters (`uint64` in the source) are unbounded naturals, so their wrap-around after 2^64 events is not modelled. Likewise, `time.Duration` differences do not overflow int64.
- Go's zero `time.Time` is modelled as `None` and every packet time as `Some(t)`. The source tests `IsZero` (capture.go:250 and 274, parse.go:215 and 238), so it takes a packet stamped with the zero time for "no time yet" and pushes no IPG or SCE gap after it; the model pushes one. Packet times are plain integers here, and none of them stands for the zero time.
- Pointers are modelled as values. Go updates a flow's records in place through the pointers `f`, `to`, `tor`, `fs` and `fsr`. The model computes the new records and writes the flow back under the key the lookup chose. Aliasing between flows cannot arise in the source either, since every flow owns its two records.
- Eight fields are never written by any of the three loops: `Initialized`, `FinSeen`, `SackedBytes`, `DuplicateAcks`, `Gaps`, `GapBytes`, `SackedBytesCtr` and `HiTSVal` of `TCPOneWayData` (data.go:43-78). They are left out of `FlowData.TCPOneWayData` and stay zero. `AckSeen`, `PriorTSVal` and `PriorSeq` are kept.
- The `m` field of both accumulators is never used and is left out.
- The derived `float64` fields of `OneWayStats` and `Flow` (percentages, means, throughput) are left out. `result.go` fills them.
