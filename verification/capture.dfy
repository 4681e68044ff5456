/** `Capture` (capture.go), the newest generation of the flow-statistics
    engine: for every decoded packet it updates the capture-wide counters,
    finds or creates the packet's bidirectional flow and updates the two
    one-way records of that flow. `Segment` specifies the update of a flow
    by one segment; with it, `FlowStore.Step` and `FlowStore.Run` specify
    one packet and a sequence of packets. `CapturePacket` and `Capture` are
    the in-place loop, proved to compute them. */
module Capture {
  import opened Packets
  import opened FlowData
  import opened FlowTable
  import opened FlowStore
  import opened OneWay

  // ---------------------------------------------------------------------------
  // Per-segment updates specific to this generation
  // ---------------------------------------------------------------------------

  /** capture.go:217-233: the TCP payload length, as Go's `uint32` of a
      possibly negative `int`. For IPv6 the 40 bytes added for `ipLen` are
      taken off again, which leaves the payload length field. */
  function SegLen(ip: IPHeader, tcp: TCPHeader): (n: uint32)
    ensures ip.IPv6? ==> n == ip.Length
  {
    if ip.IPv4? then ToUint32(IPLen(ip) - 4 * ip.IHL - 4 * tcp.DataOffset)
    else ToUint32(IPLen(ip) - 40)
  }

  /** A segment counts as data-bearing exactly when the header lengths do not
      add up to the IP length; a negative difference (headers longer than
      the packet) wraps to a large length and counts too. */
  lemma DataBearingIff(ip: IPHeader, tcp: TCPHeader)
    ensures ip.IPv4? ==> (SegLen(ip, tcp) > 0 <==> ip.Length != 4 * ip.IHL + 4 * tcp.DataOffset)
    ensures ip.IPv6? ==> (SegLen(ip, tcp) > 0 <==> ip.Length > 0)
  {
  }

  /** capture.go:180-184: a SYN-ACK records whether the responder accepted
      ECN (ECE set), a bare SYN whether the initiator asked for it (ECE and
      CWR set), as in section 6.1.1 of RFC 3168. */
  function SynFlags(f: TCPFlowData, tcp: TCPHeader): (g: TCPFlowData)
    requires tcp.SYN
    ensures tcp.ACK ==> g == f.(ECNAccepted := tcp.ECE)
    ensures !tcp.ACK ==> g == f.(ECNInitiated := tcp.ECE && tcp.CWR)
  {
    if tcp.ACK then f.(ECNAccepted := tcp.ECE) else f.(ECNInitiated := tcp.ECE && tcp.CWR)
  }

  /** capture.go:236-247 (segments without SYN): a segment at or after the
      expected sequence number moves the expectation past its payload, one
      before it is a retransmission; a TSval before the previous one marks a
      late segment. Both comparisons are modular. */
  function TrackSequence(to: TCPOneWayData, sn: uint32, segLen: uint32, tsval: uint32): (r: TCPOneWayData)
    ensures AtOrAfter(sn, to.ExpSeq) ==>
              r.ExpSeq == Add32(sn, segLen) && r.RetransmittedSegments == to.RetransmittedSegments
    ensures !AtOrAfter(sn, to.ExpSeq) ==>
              r.ExpSeq == to.ExpSeq && r.RetransmittedSegments == to.RetransmittedSegments + 1
    ensures r.LateSegments == to.LateSegments + (if Before(tsval, to.PriorTSVal) then 1 else 0)
    ensures r.PriorTSVal == tsval
    ensures r.(ExpSeq := to.ExpSeq, RetransmittedSegments := to.RetransmittedSegments,
               LateSegments := to.LateSegments, PriorTSVal := to.PriorTSVal) == to
  {
    var w := if AtOrAfter(sn, to.ExpSeq) then to.(ExpSeq := Add32(sn, segLen))
             else to.(RetransmittedSegments := to.RetransmittedSegments + 1);
    w.(LateSegments := w.LateSegments + (if Before(tsval, to.PriorTSVal) then 1 else 0),
       PriorTSVal := tsval)
  }

  /** The segment that starts at the expected sequence number is in order:
      the expectation moves to its end. */
  lemma InOrderSegmentAdvances(to: TCPOneWayData, segLen: uint32, tsval: uint32)
    ensures TrackSequence(to, to.ExpSeq, segLen, tsval).ExpSeq == Add32(to.ExpSeq, segLen)
    ensures TrackSequence(to, to.ExpSeq, segLen, tsval).RetransmittedSegments == to.RetransmittedSegments
  {
  }

  /** With unwrapped sequence numbers `s` (the segment) and `e` (expected)
      less than half the space apart, a segment that starts before the
      expectation is a retransmission and one at or after it advances the
      expectation; this holds across a wrap of the 32-bit space. */
  lemma RetransmissionIffBefore(to: TCPOneWayData, s: int, e: int, segLen: uint32, tsval: uint32)
    requires to.ExpSeq == e % TWO32
    requires -(HalfSpace as int) < s - e < HalfSpace
    ensures var r := TrackSequence(to, s % TWO32, segLen, tsval);
            && (s < e ==> r.RetransmittedSegments == to.RetransmittedSegments + 1 && r.ExpSeq == to.ExpSeq)
            && (s >= e ==> r.RetransmittedSegments == to.RetransmittedSegments && r.ExpSeq == Add32(s % TWO32, segLen))
  {
    AtOrAfterUnwrapped(s, e);
  }

  /** With unwrapped TSvals `v` (this segment) and `h` (the previous one) less
      than half the space apart, the segment is late exactly when `v < h`. */
  lemma LateIffEarlierTSVal(to: TCPOneWayData, sn: uint32, segLen: uint32, v: int, h: int)
    requires to.PriorTSVal == h % TWO32
    requires -(HalfSpace as int) < h - v < HalfSpace
    ensures TrackSequence(to, sn, segLen, v % TWO32).LateSegments ==
            to.LateSegments + (if v < h then 1 else 0)
  {
    AtOrAfterUnwrapped(h, v);
  }

  /** `a` and `b` agree on the sequence-tracking fields. */
  predicate SameTracking(a: TCPOneWayData, b: TCPOneWayData) {
    && a.ExpSeq == b.ExpSeq && a.RetransmittedSegments == b.RetransmittedSegments
    && a.LateSegments == b.LateSegments && a.PriorTSVal == b.PriorTSVal
  }

  /** `r` is `to` with the congestion signals of a segment counted: the CWR,
      ECE, NS (with the bytes the segment acknowledged) and CE counters, and
      the SCE count, gap and run of `SCEStep`. */
  predicate SignalsCounted(to: TCPOneWayData, r: TCPOneWayData, tcp: TCPHeader, dscp: uint8, ackedBytes: nat, t: int) {
    && r.CWR == to.CWR + (if tcp.CWR then 1 else 0)
    && r.ECE == to.ECE + (if tcp.ECE then 1 else 0)
    && r.ESCE == to.ESCE + (if tcp.NS then 1 else 0)
    && r.ESCEAckedBytes == to.ESCEAckedBytes + (if tcp.NS then ackedBytes else 0)
    && r.CE == to.CE + (if ECNField(dscp) == CE then 1 else 0)
    && var w := SCEStep(to, ECNField(dscp) == SCE, t);
       && r.SCE == w.SCE && r.SCEIPG == w.SCEIPG && r.PriorSCETime == w.PriorSCETime
       && r.SCERunCount == w.SCERunCount && r.SCERunLength == w.SCERunLength
  }

  /** `a` and `b` agree on every congestion-signal field. */
  predicate SameSignals(a: TCPOneWayData, b: TCPOneWayData) {
    && a.CWR == b.CWR && a.ECE == b.ECE && a.ESCE == b.ESCE && a.ESCEAckedBytes == b.ESCEAckedBytes
    && a.CE == b.CE && a.SCE == b.SCE && a.SCEIPG == b.SCEIPG && a.PriorSCETime == b.PriorSCETime
    && a.SCERunCount == b.SCERunCount && a.SCERunLength == b.SCERunLength
  }

  /** capture.go:215-247 after the segment length is known: a data-bearing
      segment is recorded, and a segment other than a SYN is checked against
      the expected sequence number and the previous TSval. */
  function Mark(to: TCPOneWayData, tcp: TCPHeader, segLen: uint32, t: int): (r: TCPOneWayData)
    ensures r.DataSegments == to.DataSegments + (if segLen > 0 then 1 else 0)
    ensures r.SeqTimes == if segLen > 0 then to.SeqTimes[tcp.Seq := t] else to.SeqTimes
    ensures r.LateSegments <= to.LateSegments + 1
    ensures r.RetransmittedSegments <= to.RetransmittedSegments + 1
    ensures !tcp.SYN ==> SameTracking(r, TrackSequence(to, tcp.Seq, segLen, tcp.TSValOrZero()))
    ensures tcp.SYN ==> r.(SeqTimes := to.SeqTimes, DataSegments := to.DataSegments) == to
    ensures r.(SeqTimes := to.SeqTimes, DataSegments := to.DataSegments, ExpSeq := to.ExpSeq,
               RetransmittedSegments := to.RetransmittedSegments, LateSegments := to.LateSegments,
               PriorTSVal := to.PriorTSVal) == to
  {
    var w := RecordData(to, tcp.Seq, segLen > 0, t);
    if tcp.SYN then w else TrackSequence(w, tcp.Seq, segLen, tcp.TSValOrZero())
  }

  // ---------------------------------------------------------------------------
  // One segment of a flow
  // ---------------------------------------------------------------------------

  /** capture.go:162-185, the part on the records: the timestamps option is
      read and, for a SYN, the expected sequence number and the previous
      TSval are set. */
  function Open(s: Sides, tcp: TCPHeader, t: int): (r: Sides)
    ensures tcp.SYN ==> r.to.ExpSeq == Add32(tcp.Seq, 1) && r.to.PriorTSVal == tcp.TSValOrZero()
    ensures !tcp.SYN ==> r.to.ExpSeq == s.to.ExpSeq && r.to.PriorTSVal == s.to.PriorTSVal
    ensures r.to.TSValTimes == match tcp.Timestamps
                               case None => s.to.TSValTimes
                               case Some(o) => s.to.TSValTimes[o.TSVal := t]
    ensures r.tor == Timestamps(s, tcp.Timestamps, t).tor
    ensures r.to.(TSValTimes := s.to.TSValTimes, ExpSeq := s.to.ExpSeq, PriorTSVal := s.to.PriorTSVal) == s.to
    ensures PeerOnly(s.tor, r.tor)
  {
    var s0 := Timestamps(s, tcp.Timestamps, t);
    if tcp.SYN then Sides(s0.to.(ExpSeq := Add32(tcp.Seq, 1), PriorTSVal := tcp.TSValOrZero()), s0.tor)
    else s0
  }

  /** The packet's own record after the segment, from the record after the
      ACK handling. */
  function Finish(a: AckedSides, p: Packet, tcp: TCPHeader): (r: TCPOneWayData)
    ensures r.Segments == a.sides.to.Segments + 1
    ensures r.DataSegments == a.sides.to.DataSegments + (if SegLen(p.IP, tcp) > 0 then 1 else 0)
    ensures r.SeqTimes == if SegLen(p.IP, tcp) > 0 then a.sides.to.SeqTimes[tcp.Seq := p.Time] else a.sides.to.SeqTimes
    ensures !tcp.SYN ==> SameTracking(r, TrackSequence(a.sides.to, tcp.Seq, SegLen(p.IP, tcp), tcp.TSValOrZero()))
    ensures tcp.SYN ==> SameTracking(r, a.sides.to)
    ensures r.PriorPacketTime == Some(p.Time) && r.IPG == RecordIPG(a.sides.to, p.Time).IPG
    ensures CountsSignals(tcp) ==> SignalsCounted(a.sides.to, r, tcp, p.IP.DSCP(), a.ackedBytes, p.Time)
    ensures !CountsSignals(tcp) ==> SameSignals(r, a.sides.to)
  {
    Tail(Mark(a.sides.to, tcp, SegLen(p.IP, tcp), p.Time), tcp, p.IP.DSCP(), a.ackedBytes, p.Time)
  }

  /** capture.go:153-286: the update of flow `f` by a TCP segment travelling in
      direction `dir`. The packet's own record goes through the timestamp,
      SYN, ACK, data, sequence-tracking, gap and congestion steps and counts
      the segment; the reverse record only loses matched send times and
      gains RTT samples; a SYN records the ECN negotiation in the flow. */
  function Segment(f: TCPFlowData, dir: Direction, p: Packet, tcp: TCPHeader): (g: TCPFlowData)
    ensures SameIdentity(g, f)
    ensures !tcp.SYN ==> g.ECNInitiated == f.ECNInitiated && g.ECNAccepted == f.ECNAccepted
  {
    var a := Acknowledge(Open(Split(f, dir), tcp, p.Time), tcp, p.Time);
    var f1 := if tcp.SYN then SynFlags(f, tcp) else f;
    Join(f1, dir, Sides(Finish(a, p, tcp), a.sides.tor))
  }

  /** The two records of a flow after a segment, named by the steps. */
  lemma SegmentSides(f: TCPFlowData, dir: Direction, p: Packet, tcp: TCPHeader)
    ensures var a := Acknowledge(Open(Split(f, dir), tcp, p.Time), tcp, p.Time);
            Split(Segment(f, dir, p, tcp), dir) == Sides(Finish(a, p, tcp), a.sides.tor)
  {
  }

  /** A segment is counted once in its own direction; the reverse record
      only loses matched send times and gains RTT samples. */
  lemma SegmentCountsOnce(f: TCPFlowData, dir: Direction, p: Packet, tcp: TCPHeader)
    ensures Split(Segment(f, dir, p, tcp), dir).to.Segments == Split(f, dir).to.Segments + 1
    ensures PeerOnly(Split(f, dir).tor, Split(Segment(f, dir, p, tcp), dir).tor)
  {
    var s := Split(f, dir);
    var s1 := Open(s, tcp, p.Time);
    var a := Acknowledge(s1, tcp, p.Time);
    SegmentSides(f, dir, p, tcp);
    assert s1.to.Segments == s.to.Segments;
    assert a.sides.to.Segments == s.to.Segments;
    PeerOnlyTransitive(s.tor, s1.tor, a.sides.tor);
  }

  /** A SYN sets the expected sequence number to one past its own and takes
      its TSval (0 without a timestamps option) as the previous TSval; a
      SYN-ACK records whether the responder accepted ECN, a bare SYN whether
      the initiator asked for it. */
  lemma SynSetsExpectations(f: TCPFlowData, dir: Direction, p: Packet, tcp: TCPHeader)
    requires tcp.SYN
    ensures Split(Segment(f, dir, p, tcp), dir).to.ExpSeq == Add32(tcp.Seq, 1)
    ensures Split(Segment(f, dir, p, tcp), dir).to.PriorTSVal == tcp.TSValOrZero()
    ensures tcp.ACK ==> Segment(f, dir, p, tcp).ECNAccepted == tcp.ECE
    ensures !tcp.ACK ==> Segment(f, dir, p, tcp).ECNInitiated == (tcp.ECE && tcp.CWR)
  {
    var s1 := Open(Split(f, dir), tcp, p.Time);
    var a := Acknowledge(s1, tcp, p.Time);
    var m := Mark(a.sides.to, tcp, SegLen(p.IP, tcp), p.Time);
    SegmentSides(f, dir, p, tcp);
    assert a.sides.to.ExpSeq == s1.to.ExpSeq && a.sides.to.PriorTSVal == s1.to.PriorTSVal;
    assert m.ExpSeq == a.sides.to.ExpSeq && m.PriorTSVal == a.sides.to.PriorTSVal;
  }

  /** A data-bearing segment is counted once and its send time recorded under
      its sequence number; any other segment leaves both alone. */
  lemma DataSegmentRecorded(f: TCPFlowData, dir: Direction, p: Packet, tcp: TCPHeader)
    ensures var before, after := Split(f, dir).to, Split(Segment(f, dir, p, tcp), dir).to;
            && after.DataSegments == before.DataSegments + (if SegLen(p.IP, tcp) > 0 then 1 else 0)
            && after.SeqTimes == if SegLen(p.IP, tcp) > 0 then before.SeqTimes[tcp.Seq := p.Time] else before.SeqTimes
  {
    var before := Split(f, dir).to;
    var s1 := Open(Split(f, dir), tcp, p.Time);
    var a := Acknowledge(s1, tcp, p.Time);
    var m := Mark(a.sides.to, tcp, SegLen(p.IP, tcp), p.Time);
    SegmentSides(f, dir, p, tcp);
    assert s1.to.DataSegments == before.DataSegments && s1.to.SeqTimes == before.SeqTimes;
    assert a.sides.to.DataSegments == before.DataSegments && a.sides.to.SeqTimes == before.SeqTimes;
    var r := Finish(a, p, tcp);
    assert r.DataSegments == m.DataSegments && r.SeqTimes == m.SeqTimes;
  }

  /** Congestion signals are counted only on segments that are not SYN, FIN
      or RST. */
  lemma ControlSegmentsCountNoSignals(f: TCPFlowData, dir: Direction, p: Packet, tcp: TCPHeader)
    requires !CountsSignals(tcp)
    ensures var before, after := Split(f, dir).to, Split(Segment(f, dir, p, tcp), dir).to;
            && after.CWR == before.CWR && after.ECE == before.ECE && after.ESCE == before.ESCE
            && after.CE == before.CE && after.SCE == before.SCE
            && after.SCERunCount == before.SCERunCount && after.SCERunLength == before.SCERunLength
  {
    var before := Split(f, dir).to;
    var s1 := Open(Split(f, dir), tcp, p.Time);
    var a := Acknowledge(s1, tcp, p.Time);
    var m := Mark(a.sides.to, tcp, SegLen(p.IP, tcp), p.Time);
    SegmentSides(f, dir, p, tcp);
    assert s1.to.(TSValTimes := before.TSValTimes, ExpSeq := before.ExpSeq, PriorTSVal := before.PriorTSVal) == before;
    assert OnlyAckFields(s1.to, a.sides.to);
    var r := Finish(a, p, tcp);
    assert r.(Segments := m.Segments, PriorPacketTime := m.PriorPacketTime, IPG := m.IPG) == m;
  }

  /** A segment without SYN moves the expected sequence number, counts a
      retransmission or a late segment and takes its TSval as the previous
      one exactly as `TrackSequence` does with the record it arrives at. */
  lemma SegmentTracksSequence(f: TCPFlowData, dir: Direction, p: Packet, tcp: TCPHeader)
    requires !tcp.SYN
    ensures var before, after := Split(f, dir).to, Split(Segment(f, dir, p, tcp), dir).to;
            SameTracking(after, TrackSequence(before, tcp.Seq, SegLen(p.IP, tcp), tcp.TSValOrZero()))
  {
    var s := Split(f, dir);
    var s1 := Open(s, tcp, p.Time);
    var a := Acknowledge(s1, tcp, p.Time);
    SegmentSides(f, dir, p, tcp);
    assert OnlyAckFields(s1.to, a.sides.to);
    assert a.sides.to.ExpSeq == s.to.ExpSeq && a.sides.to.PriorTSVal == s.to.PriorTSVal;
  }

  /** The timestamps option is read on every segment: its TSval's send time
      is recorded in the packet's own record, and its TSecr is matched
      against the reverse record, which gains that RTT sample. */
  lemma SegmentTimestamps(f: TCPFlowData, dir: Direction, p: Packet, tcp: TCPHeader)
    ensures var before, after := Split(f, dir), Split(Segment(f, dir, p, tcp), dir);
            var echoed := Timestamps(before, tcp.Timestamps, p.Time).tor;
            && after.to.TSValTimes == (match tcp.Timestamps
                                       case None => before.to.TSValTimes
                                       case Some(o) => before.to.TSValTimes[o.TSVal := p.Time])
            && after.tor.TSValTimes == echoed.TSValTimes && after.tor.TSValRTT == echoed.TSValRTT
  {
    var s := Split(f, dir);
    var s1 := Open(s, tcp, p.Time);
    var a := Acknowledge(s1, tcp, p.Time);
    SegmentSides(f, dir, p, tcp);
    assert OnlyAckFields(s1.to, a.sides.to);
    assert PeerOnly(s1.tor, a.sides.tor);
  }

  /** Every segment records its gap from the previous packet of its
      direction. */
  lemma SegmentGap(f: TCPFlowData, dir: Direction, p: Packet, tcp: TCPHeader)
    ensures var before, after := Split(f, dir).to, Split(Segment(f, dir, p, tcp), dir).to;
            after.PriorPacketTime == Some(p.Time) && after.IPG == RecordIPG(before, p.Time).IPG
  {
    var s := Split(f, dir);
    var s1 := Open(s, tcp, p.Time);
    var a := Acknowledge(s1, tcp, p.Time);
    SegmentSides(f, dir, p, tcp);
    assert OnlyAckFields(s1.to, a.sides.to);
  }

  /** A segment other than a SYN, FIN or RST counts its CWR, ECE and NS flags
      (NS with the bytes its ACK acknowledged), a CE mark, and an SCE mark
      with its gap and run. */
  lemma SegmentSignals(f: TCPFlowData, dir: Direction, p: Packet, tcp: TCPHeader)
    requires CountsSignals(tcp)
    ensures var before, after := Split(f, dir).to, Split(Segment(f, dir, p, tcp), dir).to;
            var acked := if tcp.ACK then Ack(before, tcp.Ack, p.Time).ackedBytes else 0;
            SignalsCounted(before, after, tcp, p.IP.DSCP(), acked, p.Time)
  {
    var s := Split(f, dir);
    var s1 := Open(s, tcp, p.Time);
    var a := Acknowledge(s1, tcp, p.Time);
    SegmentSides(f, dir, p, tcp);
    var after := Finish(a, p, tcp);
    assert SignalsCounted(a.sides.to, after, tcp, p.IP.DSCP(), a.ackedBytes, p.Time);
    assert OnlyAckFields(s1.to, a.sides.to);
    assert s1.to.AckSeen == s.to.AckSeen && s1.to.PriorAck == s.to.PriorAck;
    assert a.ackedBytes == if tcp.ACK then Ack(s.to, tcp.Ack, p.Time).ackedBytes else 0;
    SignalsCountedFrom(s.to, a.sides.to, after, tcp, p.IP.DSCP(), a.ackedBytes, p.Time);
  }

  /** Counting signals reads only the signal fields of the record. */
  lemma SignalsCountedFrom(x: TCPOneWayData, y: TCPOneWayData, r: TCPOneWayData, tcp: TCPHeader, dscp: uint8,
                           ackedBytes: nat, t: int)
    requires SameSignals(x, y) && SignalsCounted(y, r, tcp, dscp, ackedBytes, t)
    ensures SignalsCounted(x, r, tcp, dscp, ackedBytes, t)
  {
    var sce := ECNField(dscp) == SCE;
    var wx, wy := SCEStep(x, sce, t), SCEStep(y, sce, t);
    assert wx.SCE == wy.SCE && wx.SCEIPG == wy.SCEIPG && wx.PriorSCETime == wy.PriorSCETime;
    assert wx.SCERunCount == wy.SCERunCount && wx.SCERunLength == wy.SCERunLength;
  }

  /** A segment keeps both records of its flow consistent. */
  lemma SegmentKeepsConsistent(f: TCPFlowData, dir: Direction, p: Packet, tcp: TCPHeader)
    requires FlowConsistent(f)
    ensures FlowConsistent(Segment(f, dir, p, tcp))
  {
    var s := Split(f, dir);
    var s1 := Open(s, tcp, p.Time);
    var a := Acknowledge(s1, tcp, p.Time);
    var m := Mark(a.sides.to, tcp, SegLen(p.IP, tcp), p.Time);
    SegmentSides(f, dir, p, tcp);
    assert Consistent(s.to) && Consistent(s.tor);
    assert Consistent(s1.to);
    AcknowledgeStartsClock(s1, tcp, p.Time);
    assert Pending(m);
    TailKeepsConsistent(m, tcp, p.IP.DSCP(), a.ackedBytes, p.Time);
    PeerOnlyTransitive(s.tor, s1.tor, a.sides.tor);
    PeerOnlyKeepsConsistent(s.tor, a.sides.tor);
    var g := Segment(f, dir, p, tcp);
    assert Split(g, dir) == Sides(Finish(a, p, tcp), a.sides.tor);
  }

  /** The segment update keeps flow identities and one-way consistency, the
      two facts the store-level invariants need. */
  lemma SegmentKeepsInvariants()
    ensures KeepsIdentity(Segment) && KeepsConsistent(Segment)
  {
    forall f, dir, p, tcp | FlowConsistent(f)
      ensures FlowConsistent(Segment(f, dir, p, tcp))
    {
      SegmentKeepsConsistent(f, dir, p, tcp);
    }
  }

  // ---------------------------------------------------------------------------
  // The packet loop
  // ---------------------------------------------------------------------------

  /** capture.go:236-247 (segments without SYN): retransmitted and late
      segments. */
  method DetectReordering(to: TCPOneWayData, tcp: TCPHeader, segLen: uint32, tsval: uint32)
    returns (to': TCPOneWayData)
    ensures to' == TrackSequence(to, tcp.Seq, segLen, tsval)
  {
    to' := to;
    if Sub32(tcp.Seq, to'.ExpSeq) < HalfSpace {
      to' := to'.(ExpSeq := Add32(tcp.Seq, segLen));
    } else {
      to' := to'.(RetransmittedSegments := to'.RetransmittedSegments + 1);
    }
    if Sub32(tsval, to'.PriorTSVal) > HalfSpace {
      to' := to'.(LateSegments := to'.LateSegments + 1);
    }
    to' := to'.(PriorTSVal := tsval);
  }

  /** capture.go:215-247: segment length and DSCP by IP version, then the
      data, retransmission and late-segment checks. */
  method MarkSegment(to: TCPOneWayData, p: Packet, tcp: TCPHeader, tsval: uint32)
    returns (to': TCPOneWayData, dscp: uint8)
    requires tsval == tcp.TSValOrZero()
    ensures to' == Mark(to, tcp, SegLen(p.IP, tcp), p.Time) && dscp == p.IP.DSCP()
  {
    var segLen: uint32;
    if p.IP.IPv4? {
      segLen := ToUint32(IPLen(p.IP) - 4 * p.IP.IHL - 4 * tcp.DataOffset);
      dscp := p.IP.TOS;
    } else {
      segLen := ToUint32(IPLen(p.IP) - 40);
      dscp := p.IP.TrafficClass;
    }
    to' := RecordDataSegment(to, tcp.Seq, segLen > 0, p.Time);
    if !tcp.SYN {
      to' := DetectReordering(to', tcp, segLen, tsval);
    }
  }

  /** capture.go:153-286, block by block on local copies of the flow and of
      its two one-way records. */
  method UpdateSegment(f: TCPFlowData, dir: Direction, p: Packet, tcp: TCPHeader) returns (g: TCPFlowData)
    ensures g == Segment(f, dir, p, tcp)
  {
    var t := p.Time;
    g := f;
    var to, tor := f.Up, f.Down;
    if dir == Down {
      to, tor := f.Down, f.Up;
    }
    assert Sides(to, tor) == Split(f, dir);

    var tsval;
    to, tor, tsval := ReadTimestamps(to, tor, tcp, t);
    ghost var s0 := Sides(to, tor);

    if tcp.SYN {
      if tcp.ACK {
        g := g.(ECNAccepted := tcp.ECE);
      } else {
        g := g.(ECNInitiated := tcp.ECE && tcp.CWR);
      }
      to := to.(ExpSeq := Add32(tcp.Seq, 1));
      to := to.(PriorTSVal := tsval);
    }
    assert Sides(to, tor) == if tcp.SYN then Sides(s0.to.(ExpSeq := Add32(tcp.Seq, 1), PriorTSVal := tsval), s0.tor) else s0;

    var ackedBytes;
    to, tor, ackedBytes := HandleAcks(to, tor, tcp, t);
    var dscp;
    to, dscp := MarkSegment(to, p, tcp, tsval);
    to := RecordTail(to, tcp, dscp, ackedBytes, t);

    if dir == Up {
      g := g.(Up := to, Down := tor);
    } else {
      g := g.(Up := tor, Down := to);
    }
  }

  /** capture.go:80-151 and the write-back of the flow: one packet applied to
      the store in place; `flowIndex` is the loop's flow counter. */
  method CapturePacket(d: Data, flowIndex: nat, p: Packet) returns (next: nat)
    modifies d
    ensures State(d.Snapshot(), next) == Step(State(old(d.Snapshot()), flowIndex), p, Segment)
  {
    AccountPacket(d, p);
    next := flowIndex;
    if p.TCP.None? {
      return;
    }
    var tcp := p.TCP.value;

    match p.IP
    case IPv4(src, dst, _, _, _) =>
      var key, dir, f;
      key, dir, f, next := Lookup4(d, flowIndex, Key4(src, dst, tcp));
      f := UpdateSegment(f, dir, p, tcp);
      d.TCP4 := d.TCP4[key := f];
    case IPv6(src, dst, _, _) =>
      var key, dir, f;
      key, dir, f, next := Lookup6(d, flowIndex, Key6(src, dst, tcp));
      f := UpdateSegment(f, dir, p, tcp);
      d.TCP6 := d.TCP6[key := f];
  }

  /** capture.go:46-290: the packet loop over the decoded packets, with the
      flow counter starting at 0. From a new store, the result is valid, its
      one-way records are consistent and the packet count is the number of
      packets. */
  method Capture(d: Data, packets: seq<Packet>)
    modifies d
    ensures d.Snapshot() == Run(State(old(d.Snapshot()), 0), packets, Segment).st
    ensures old(d.Snapshot()) == Store(IPData(0, 0), old(d.Meta), map[], map[]) ==>
              && Valid(Run(State(old(d.Snapshot()), 0), packets, Segment))
              && AllConsistent(d.Snapshot())
              && d.IP == IPData(|packets|, SumIPLen(packets))
  {
    var flowIndex: nat := 0;
    ghost var s0 := State(d.Snapshot(), 0);
    for i := 0 to |packets|
      invariant State(d.Snapshot(), flowIndex) == Run(s0, packets[..i], Segment)
    {
      assert packets[..i + 1][..i] == packets[..i];
      flowIndex := CapturePacket(d, flowIndex, packets[i]);
    }
    assert packets[..|packets|] == packets;
    if s0.st == Store(IPData(0, 0), s0.st.Meta, map[], map[]) {
      SegmentKeepsInvariants();
      RunFromEmpty(s0.st.Meta, packets, Segment);
    }
  }
}
