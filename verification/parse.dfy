/** `Parse` (parse.go), the earlier generation of the flow-statistics engine
    that `Capture` replaced. It keeps the same store, flow lookup and
    acknowledgement handling, but reads the timestamps option only on ACKs,
    tracks late segments by a plain comparison of sequence numbers, tests
    for payload on the signed length and does not look at SYNs.
    `Segment` specifies the update of a flow by one segment; `ParsePacket`
    and `Parse` are the in-place loop, proved to compute `FlowStore.Step`
    and `FlowStore.Run` with it. */
module Parse {
  import opened Packets
  import opened FlowData
  import opened FlowTable
  import opened FlowStore
  import opened OneWay
  import Capture

  // ---------------------------------------------------------------------------
  // Per-segment updates specific to this generation
  // ---------------------------------------------------------------------------

  /** parse.go:199-213: a segment carries data when the IP length exceeds the
      header lengths, compared as signed integers. */
  predicate DataBearing(ip: IPHeader, tcp: TCPHeader) {
    if ip.IPv4? then IPLen(ip) - 4 * ip.IHL - 4 * tcp.DataOffset > 0
    else IPLen(ip) - 40 > 0
  }

  /** For IPv6 the payload length field alone decides; for IPv4 the total
      length must exceed the two header lengths. */
  lemma DataBearingIff(ip: IPHeader, tcp: TCPHeader)
    ensures ip.IPv4? ==> (DataBearing(ip, tcp) <==> ip.Length > 4 * ip.IHL + 4 * tcp.DataOffset)
    ensures ip.IPv6? ==> (DataBearing(ip, tcp) <==> ip.Length > 0)
  {
  }

  /** The two generations agree on which segments carry data, except on an
      IPv4 segment whose headers claim more than the total length: `Capture`
      converts the negative difference to `uint32`, which wraps to a large
      payload length, and counts the segment as data-bearing; `Parse` does
      not. */
  lemma DataBearingVersusCapture(ip: IPHeader, tcp: TCPHeader)
    ensures (ip.IPv6? || ip.Length >= 4 * ip.IHL + 4 * tcp.DataOffset) ==>
              (DataBearing(ip, tcp) <==> Capture.SegLen(ip, tcp) > 0)
    ensures (ip.IPv4? && ip.Length < 4 * ip.IHL + 4 * tcp.DataOffset) ==>
              !DataBearing(ip, tcp) && Capture.SegLen(ip, tcp) > 0
  {
    Capture.DataBearingIff(ip, tcp);
  }

  /** parse.go:194-197: a segment whose sequence number is below the previous
      one is late; the comparison is on the plain 32-bit values. */
  function TrackOrder(to: TCPOneWayData, sn: uint32): (r: TCPOneWayData)
    ensures r.LateSegments == to.LateSegments + (if sn < to.PriorSeq then 1 else 0)
    ensures r.PriorSeq == sn
    ensures r.(LateSegments := to.LateSegments, PriorSeq := to.PriorSeq) == to
  {
    to.(LateSegments := to.LateSegments + (if sn < to.PriorSeq then 1 else 0), PriorSeq := sn)
  }

  /** `TrackOrder` over a run of sequence numbers. */
  function TrackOrderAll(to: TCPOneWayData, sns: seq<uint32>): TCPOneWayData
    decreases |sns|
  {
    if |sns| == 0 then to else TrackOrderAll(TrackOrder(to, sns[0]), sns[1..])
  }

  /** The number of places where a run of sequence numbers steps down,
      starting from `prev`. */
  function Descents(prev: uint32, sns: seq<uint32>): nat
    decreases |sns|
  {
    if |sns| == 0 then 0 else (if sns[0] < prev then 1 else 0) + Descents(sns[0], sns[1..])
  }

  /** Over a run of segments, the late count grows by the number of
      descents and the previous sequence number is the last one seen. */
  lemma {:induction false} LateCountsDescents(to: TCPOneWayData, sns: seq<uint32>)
    ensures TrackOrderAll(to, sns).LateSegments == to.LateSegments + Descents(to.PriorSeq, sns)
    ensures TrackOrderAll(to, sns).PriorSeq == if |sns| == 0 then to.PriorSeq else sns[|sns| - 1]
    decreases |sns|
  {
    if |sns| > 0 {
      LateCountsDescents(TrackOrder(to, sns[0]), sns[1..]);
    }
  }

  /** A run of sequence numbers in ascending order, none below the previous
      one, has no late segment. */
  lemma {:induction false} AscendingRunHasNoDescents(prev: uint32, sns: seq<uint32>)
    requires forall i :: 0 <= i < |sns| ==> prev <= sns[i]
    requires forall i, j :: 0 <= i < j < |sns| ==> sns[i] <= sns[j]
    ensures Descents(prev, sns) == 0
    decreases |sns|
  {
    if |sns| > 0 {
      AscendingRunHasNoDescents(sns[0], sns[1..]);
    }
  }

  /** Unlike the modular check of `Capture`, the plain comparison counts an
      in-order segment as late when the sequence space wraps between it and
      the previous segment. */
  lemma WrapCountsInOrderSegmentLate(to: TCPOneWayData, n: uint32)
    requires 0 < n < HalfSpace && to.PriorSeq as int + n as int >= TWO32
    ensures AtOrAfter(Add32(to.PriorSeq, n), to.PriorSeq)
    ensures TrackOrder(to, Add32(to.PriorSeq, n)).LateSegments == to.LateSegments + 1
  {
    SubAfterAdd(to.PriorSeq, n);
  }

  /** parse.go:194-213: the late-segment check, then the data record. */
  function Mark(to: TCPOneWayData, ip: IPHeader, tcp: TCPHeader, t: int): (r: TCPOneWayData)
    ensures r.LateSegments <= to.LateSegments + 1
    ensures r.DataSegments == to.DataSegments + (if DataBearing(ip, tcp) then 1 else 0)
    ensures r.(SeqTimes := to.SeqTimes, DataSegments := to.DataSegments,
               LateSegments := to.LateSegments, PriorSeq := to.PriorSeq) == to
  {
    RecordData(TrackOrder(to, tcp.Seq), tcp.Seq, DataBearing(ip, tcp), t)
  }

  // ---------------------------------------------------------------------------
  // One segment of a flow
  // ---------------------------------------------------------------------------

  /** parse.go:154-192, the part on the records: the ACK handling, and for an
      ACK the timestamps option. A segment without ACK leaves its
      timestamps unread. */
  function Answer(s: Sides, tcp: TCPHeader, t: int): (r: AckedSides)
    ensures r.ackedBytes == Acknowledge(s, tcp, t).ackedBytes
    ensures !tcp.ACK ==> r == AckedSides(s, 0)
    ensures tcp.ACK ==> r.sides == Timestamps(Acknowledge(s, tcp, t).sides, tcp.Timestamps, t)
  {
    var a := Acknowledge(s, tcp, t);
    if tcp.ACK then AckedSides(Timestamps(a.sides, tcp.Timestamps, t), a.ackedBytes) else a
  }

  /** parse.go:146-249: the update of flow `f` by a TCP segment travelling in
      direction `dir`. The packet's own record goes through the ACK,
      timestamp, late-segment, data, gap and congestion steps and counts the
      segment; the reverse record only loses matched send times and gains
      RTT samples; the flow's own fields are left alone. */
  function Segment(f: TCPFlowData, dir: Direction, p: Packet, tcp: TCPHeader): (g: TCPFlowData)
    ensures SameIdentity(g, f)
    ensures g.ECNInitiated == f.ECNInitiated && g.ECNAccepted == f.ECNAccepted
  {
    var a := Answer(Split(f, dir), tcp, p.Time);
    var to := Tail(Mark(a.sides.to, p.IP, tcp, p.Time), tcp, p.IP.DSCP(), a.ackedBytes, p.Time);
    Join(f, dir, Sides(to, a.sides.tor))
  }

  /** The two records of a flow after a segment, named by the steps. */
  lemma SegmentSides(f: TCPFlowData, dir: Direction, p: Packet, tcp: TCPHeader)
    ensures var a := Answer(Split(f, dir), tcp, p.Time);
            Split(Segment(f, dir, p, tcp), dir)
              == Sides(Tail(Mark(a.sides.to, p.IP, tcp, p.Time), tcp, p.IP.DSCP(), a.ackedBytes, p.Time), a.sides.tor)
  {
  }

  /** The timestamps option of the ACK handling changes only the correlator
      fields of either record. */
  lemma AnswerFrames(s: Sides, tcp: TCPHeader, t: int)
    ensures var r := Answer(s, tcp, t);
            && OnlyAckFields(s.to, r.sides.to.(TSValTimes := s.to.TSValTimes))
            && PeerOnly(s.tor, r.sides.tor)
  {
    var a := Acknowledge(s, tcp, t);
    if tcp.ACK {
      assert PeerOnly(a.sides.tor, Answer(s, tcp, t).sides.tor);
      PeerOnlyTransitive(s.tor, a.sides.tor, Answer(s, tcp, t).sides.tor);
    }
  }

  /** A segment is counted once in its own direction; the reverse record
      only loses matched send times and gains RTT samples. */
  lemma SegmentCountsOnce(f: TCPFlowData, dir: Direction, p: Packet, tcp: TCPHeader)
    ensures Split(Segment(f, dir, p, tcp), dir).to.Segments == Split(f, dir).to.Segments + 1
    ensures PeerOnly(Split(f, dir).tor, Split(Segment(f, dir, p, tcp), dir).tor)
  {
    SegmentSides(f, dir, p, tcp);
    AnswerFrames(Split(f, dir), tcp, p.Time);
  }

  /** Timestamps are read only from ACKs: a segment without ACK records no
      TSval and leaves the reverse record as it was; an ACK with the option
      records its TSval's send time. */
  lemma TimestampsOnlyOnAcks(f: TCPFlowData, dir: Direction, p: Packet, tcp: TCPHeader)
    ensures var before, after := Split(f, dir), Split(Segment(f, dir, p, tcp), dir);
            && (!tcp.ACK ==> after.to.TSValTimes == before.to.TSValTimes && after.tor == before.tor)
            && (tcp.ACK && tcp.Timestamps.Some? ==>
                  after.to.TSValTimes == before.to.TSValTimes[tcp.Timestamps.value.TSVal := p.Time])
  {
    var s := Split(f, dir);
    var a := Answer(s, tcp, p.Time);
    var m := Mark(a.sides.to, p.IP, tcp, p.Time);
    SegmentSides(f, dir, p, tcp);
    var ack := Acknowledge(s, tcp, p.Time);
    assert ack.sides.to.TSValTimes == s.to.TSValTimes;
    assert m.TSValTimes == a.sides.to.TSValTimes;
  }

  /** A segment is late exactly when its sequence number is below the
      previous segment's, which it then replaces. */
  lemma LateIffBelowPrior(f: TCPFlowData, dir: Direction, p: Packet, tcp: TCPHeader)
    ensures var before, after := Split(f, dir).to, Split(Segment(f, dir, p, tcp), dir).to;
            && after.LateSegments == before.LateSegments + (if tcp.Seq < before.PriorSeq then 1 else 0)
            && after.PriorSeq == tcp.Seq
  {
    var s := Split(f, dir);
    var a := Answer(s, tcp, p.Time);
    var m := Mark(a.sides.to, p.IP, tcp, p.Time);
    SegmentSides(f, dir, p, tcp);
    AnswerFrames(s, tcp, p.Time);
    assert a.sides.to.LateSegments == s.to.LateSegments && a.sides.to.PriorSeq == s.to.PriorSeq;
    var r := Tail(m, tcp, p.IP.DSCP(), a.ackedBytes, p.Time);
    assert r.LateSegments == m.LateSegments && r.PriorSeq == m.PriorSeq;
  }

  /** A data-bearing segment is counted once and its send time recorded under
      its sequence number; any other segment leaves both alone. */
  lemma DataSegmentRecorded(f: TCPFlowData, dir: Direction, p: Packet, tcp: TCPHeader)
    ensures var before, after := Split(f, dir).to, Split(Segment(f, dir, p, tcp), dir).to;
            && after.DataSegments == before.DataSegments + (if DataBearing(p.IP, tcp) then 1 else 0)
            && after.SeqTimes == if DataBearing(p.IP, tcp) then before.SeqTimes[tcp.Seq := p.Time] else before.SeqTimes
  {
    var s := Split(f, dir);
    var a := Answer(s, tcp, p.Time);
    var m := Mark(a.sides.to, p.IP, tcp, p.Time);
    SegmentSides(f, dir, p, tcp);
    AnswerFrames(s, tcp, p.Time);
    assert a.sides.to.DataSegments == s.to.DataSegments && a.sides.to.SeqTimes == s.to.SeqTimes;
    var r := Tail(m, tcp, p.IP.DSCP(), a.ackedBytes, p.Time);
    assert r.DataSegments == m.DataSegments && r.SeqTimes == m.SeqTimes;
  }

  /** The packet's own record ends the segment consistent. */
  lemma OwnRecordKeepsConsistent(s: Sides, p: Packet, tcp: TCPHeader)
    requires Consistent(s.to)
    ensures var a := Answer(s, tcp, p.Time);
            Consistent(Tail(Mark(a.sides.to, p.IP, tcp, p.Time), tcp, p.IP.DSCP(), a.ackedBytes, p.Time))
  {
    var a := Answer(s, tcp, p.Time);
    var m := Mark(a.sides.to, p.IP, tcp, p.Time);
    AcknowledgeStartsClock(s, tcp, p.Time);
    AnswerFrames(s, tcp, p.Time);
    assert Pending(m);
    TailKeepsConsistent(m, tcp, p.IP.DSCP(), a.ackedBytes, p.Time);
  }

  /** A segment keeps both records of its flow consistent. */
  lemma SegmentKeepsConsistent(f: TCPFlowData, dir: Direction, p: Packet, tcp: TCPHeader)
    requires FlowConsistent(f)
    ensures FlowConsistent(Segment(f, dir, p, tcp))
  {
    var s := Split(f, dir);
    assert Consistent(s.to) && Consistent(s.tor);
    SegmentSides(f, dir, p, tcp);
    OwnRecordKeepsConsistent(s, p, tcp);
    AnswerFrames(s, tcp, p.Time);
    PeerOnlyKeepsConsistent(s.tor, Answer(s, tcp, p.Time).sides.tor);
  }

  /** The segment update keeps flow identities and one-way consistency, the
      two facts the store-level invariants need. */
  lemma SegmentKeepsInvariants()
    ensures KeepsIdentity(Segment) && KeepsConsistent(Segment)
  {
    forall f, dir, p, tcp | FlowConsistent(f)
      ensures FlowConsistent(Segment(f, dir, p, tcp))
    {
      SegmentKeepsConsistent(f, dir, p, tcp);
    }
  }

  // ---------------------------------------------------------------------------
  // The packet loop
  // ---------------------------------------------------------------------------

  /** parse.go:194-197 */
  method DetectLate(to: TCPOneWayData, sn: uint32) returns (to': TCPOneWayData)
    ensures to' == TrackOrder(to, sn)
  {
    to' := to;
    if sn < to'.PriorSeq {
      to' := to'.(LateSegments := to'.LateSegments + 1);
    }
    to' := to'.(PriorSeq := sn);
  }

  /** parse.go:194-213: the late-segment check, then the data test and DSCP
      by IP version. */
  method MarkSegment(to: TCPOneWayData, p: Packet, tcp: TCPHeader)
    returns (to': TCPOneWayData, dscp: uint8)
    ensures to' == Mark(to, p.IP, tcp, p.Time) && dscp == p.IP.DSCP()
  {
    to' := DetectLate(to, tcp.Seq);
    var ipLen := IPLen(p.IP);
    if p.IP.IPv4? {
      to' := RecordDataSegment(to', tcp.Seq, ipLen - 4 * p.IP.IHL - 4 * tcp.DataOffset > 0, p.Time);
      dscp := p.IP.TOS;
    } else {
      to' := RecordDataSegment(to', tcp.Seq, ipLen - 40 > 0, p.Time);
      dscp := p.IP.TrafficClass;
    }
  }

  /** parse.go:146-249, block by block on local copies of the two one-way
      records of the flow. */
  method UpdateSegment(f: TCPFlowData, dir: Direction, p: Packet, tcp: TCPHeader) returns (g: TCPFlowData)
    ensures g == Segment(f, dir, p, tcp)
  {
    var t := p.Time;
    var to, tor := f.Up, f.Down;
    if dir == Down {
      to, tor := f.Down, f.Up;
    }
    assert Sides(to, tor) == Split(f, dir);

    var ackedBytes;
    to, tor, ackedBytes := HandleAcks(to, tor, tcp, t);
    if tcp.ACK {
      var tsval;
      to, tor, tsval := ReadTimestamps(to, tor, tcp, t);
    }
    var dscp;
    to, dscp := MarkSegment(to, p, tcp);
    to := RecordTail(to, tcp, dscp, ackedBytes, t);

    if dir == Up {
      g := f.(Up := to, Down := tor);
    } else {
      g := f.(Up := tor, Down := to);
    }
  }

  /** parse.go:76-144 and the write-back of the flow: one packet applied to
      the store in place; `flowIndex` is the loop's flow counter. */
  method ParsePacket(d: Data, flowIndex: nat, p: Packet) returns (next: nat)
    modifies d
    ensures State(d.Snapshot(), next) == Step(State(old(d.Snapshot()), flowIndex), p, Segment)
  {
    AccountPacket(d, p);
    next := flowIndex;
    if p.TCP.None? {
      return;
    }
    var tcp := p.TCP.value;

    match p.IP
    case IPv4(src, dst, _, _, _) =>
      var key, dir, f;
      key, dir, f, next := Lookup4(d, flowIndex, Key4(src, dst, tcp));
      f := UpdateSegment(f, dir, p, tcp);
      d.TCP4 := d.TCP4[key := f];
    case IPv6(src, dst, _, _) =>
      var key, dir, f;
      key, dir, f, next := Lookup6(d, flowIndex, Key6(src, dst, tcp));
      f := UpdateSegment(f, dir, p, tcp);
      d.TCP6 := d.TCP6[key := f];
  }

  /** parse.go:21-254: the packet loop over the decoded packets, with the flow
      counter starting at 0. From a new store, the result is valid, its
      one-way records are consistent and the packet count is the number of
      packets. */
  method Parse(d: Data, packets: seq<Packet>)
    modifies d
    ensures d.Snapshot() == Run(State(old(d.Snapshot()), 0), packets, Segment).st
    ensures old(d.Snapshot()) == Store(IPData(0, 0), old(d.Meta), map[], map[]) ==>
              && Valid(Run(State(old(d.Snapshot()), 0), packets, Segment))
              && AllConsistent(d.Snapshot())
              && d.IP == IPData(|packets|, SumIPLen(packets))
  {
    var flowIndex: nat := 0;
    ghost var s0 := State(d.Snapshot(), 0);
    for i := 0 to |packets|
      invariant State(d.Snapshot(), flowIndex) == Run(s0, packets[..i], Segment)
    {
      assert packets[..i + 1][..i] == packets[..i];
      flowIndex := ParsePacket(d, flowIndex, packets[i]);
    }
    assert packets[..|packets|] == packets;
    if s0.st == Store(IPData(0, 0), s0.st.Meta, map[], map[]) {
      SegmentKeepsInvariants();
      RunFromEmpty(s0.st.Meta, packets, Segment);
    }
  }
}
