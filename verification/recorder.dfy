/** `Recorder` (main.go), the oldest generation of the flow-statistics engine.
    Its per-direction record `OneWayStats` keeps running totals of the RTT
    samples instead of accumulators, counts no ACKs, segments or gaps, and
    tracks neither sequence order nor SCE runs. `Segment` specifies the
    update of a flow by one segment and `Step` and `Run` the update of the
    recorder by packets; `RecordPacket` and `RecordFromChannel` are the
    in-place loop, proved to compute them. */
module Recording {
  import opened Packets
  import opened FlowTable
  import FlowData

  // ---------------------------------------------------------------------------
  // Flow keys
  // ---------------------------------------------------------------------------

  datatype IP4FlowKey = IP4FlowKey(SrcIP: Addr4, SrcPort: uint16, DstIP: Addr4, DstPort: uint16)
  {
    /** main.go:44-46 */
    function Reverse(): (r: IP4FlowKey)
      ensures r.SrcIP == DstIP && r.SrcPort == DstPort
      ensures r.DstIP == SrcIP && r.DstPort == SrcPort
    {
      IP4FlowKey(DstIP, DstPort, SrcIP, SrcPort)
    }
  }

  datatype IP6FlowKey = IP6FlowKey(SrcIP: Addr6, SrcPort: uint16, DstIP: Addr6, DstPort: uint16)
  {
    /** main.go:55-57 */
    function Reverse(): (r: IP6FlowKey)
      ensures r.SrcIP == DstIP && r.SrcPort == DstPort
      ensures r.DstIP == SrcIP && r.DstPort == SrcPort
    {
      IP6FlowKey(DstIP, DstPort, SrcIP, SrcPort)
    }
  }

  function RevIP4(k: IP4FlowKey): IP4FlowKey { k.Reverse() }
  function RevIP6(k: IP6FlowKey): IP6FlowKey { k.Reverse() }

  /** Reversing a key twice gives the key back. */
  lemma KeyReverseInvolutions()
    ensures Involution(RevIP4) && Involution(RevIP6)
  {
  }

  function Ends4(k: IP4FlowKey): FlowData.Ends { FlowData.Ends(k.SrcIP, k.SrcPort, k.DstIP, k.DstPort) }
  function Ends6(k: IP6FlowKey): FlowData.Ends { FlowData.Ends(k.SrcIP, k.SrcPort, k.DstIP, k.DstPort) }

  // ---------------------------------------------------------------------------
  // Records
  // ---------------------------------------------------------------------------

  /** main.go:59-89, the fields the packet loop writes: counters, ack clock,
      and the two RTT correlators, each a map of send times with the total
      and the number of the RTTs it matched. The percentages, means and
      throughput are filled in afterwards by `NewResult`. */
  datatype OneWayStats = OneWayStats(
    CE: nat, SCE: nat, ESCE: nat, ECE: nat, CWR: nat,
    IPBytes: nat, DataPackets: nat, Packets: nat,
    AckedBytes: nat, ESCEAckedBytes: nat,
    FirstAckTime: Option<int>, LastAckTime: Option<int>,
    TSValTimes: map<uint32, int>, TotalTSValRTT: int, TSValRTTCount: nat,
    SeqTimes: map<uint32, int>, TotalSeqRTT: int, SeqRTTCount: nat,
    AckSeen: bool, PriorAck: uint32)

  /** main.go:91-96: empty maps, every counter 0 and no ack clock. */
  function NewOneWayStats(): (w: OneWayStats)
    ensures w.TSValTimes == map[] && w.SeqTimes == map[]
    ensures w.CE == w.SCE == w.ESCE == w.ECE == w.CWR == 0
    ensures w.IPBytes == w.DataPackets == w.Packets == w.AckedBytes == w.ESCEAckedBytes == 0
    ensures w.TotalTSValRTT == w.TSValRTTCount == w.TotalSeqRTT == w.SeqRTTCount == 0
    ensures !w.AckSeen && w.PriorAck == 0 && w.FirstAckTime.None? && w.LastAckTime.None?
  {
    OneWayStats(0, 0, 0, 0, 0, 0, 0, 0, 0, 0, None, None, map[], 0, 0, map[], 0, 0, false, 0)
  }

  /** main.go:98-108: one bidirectional flow, without the mean RTTs that
      `NewResult` fills in. */
  datatype Flow = Flow(
    Index: int,
    SrcIP: seq<uint8>, SrcPort: uint16, DstIP: seq<uint8>, DstPort: uint16,
    Up: OneWayStats, Down: OneWayStats)

  function FlowEnds(f: Flow): FlowData.Ends { FlowData.Ends(f.SrcIP, f.SrcPort, f.DstIP, f.DstPort) }
  function FlowIdx(f: Flow): int { f.Index }

  /** main.go:230-238, 252-260: a new flow with the next index, the packet's
      endpoints and two new records. */
  function NewFlow(index: nat, e: FlowData.Ends): (f: Flow)
    ensures f.Index == index && FlowEnds(f) == e
    ensures f.Up == NewOneWayStats() && f.Down == NewOneWayStats()
  {
    Flow(index, e.SrcIP, e.SrcPort, e.DstIP, e.DstPort, NewOneWayStats(), NewOneWayStats())
  }

  // ---------------------------------------------------------------------------
  // One segment of a flow
  // ---------------------------------------------------------------------------

  /** The record of the packet's own direction (`fs`) and of the reverse one
      (`fsr`). */
  datatype Sides = Sides(fs: OneWayStats, fsr: OneWayStats)

  /** main.go:271-277 */
  function Split(f: Flow, dir: Direction): (s: Sides)
    ensures dir == Up ==> s == Sides(f.Up, f.Down)
    ensures dir == Down ==> s == Sides(f.Down, f.Up)
  {
    if dir == Up then Sides(f.Up, f.Down) else Sides(f.Down, f.Up)
  }

  /** Puts the two records back where `Split` took them from. */
  function Join(f: Flow, dir: Direction, s: Sides): (g: Flow)
    ensures Split(g, dir) == s
    ensures g.(Up := f.Up, Down := f.Down) == f
  {
    if dir == Up then f.(Up := s.fs, Down := s.fsr) else f.(Up := s.fsr, Down := s.fs)
  }

  /** Only the correlator fields, which the reverse direction's packets
      update, differ between `a` and `b`. */
  predicate PeerOnly(a: OneWayStats, b: OneWayStats) {
    a.(SeqTimes := b.SeqTimes, TotalSeqRTT := b.TotalSeqRTT, SeqRTTCount := b.SeqRTTCount,
       TSValTimes := b.TSValTimes, TotalTSValRTT := b.TotalTSValRTT, TSValRTTCount := b.TSValRTTCount) == b
  }

  /** The record after an ACK and the bytes it acknowledged. */
  datatype AckedStats = AckedStats(fs: OneWayStats, ackedBytes: nat)

  /** main.go:283-294: the first ACK starts the ack clock and acknowledges
      nothing; each later one acknowledges the forward distance from the
      previous ack number, modulo 2^32, and moves `LastAckTime` only when
      that distance is positive. The ACKs themselves are not counted. */
  function Ack(fs: OneWayStats, ack: uint32, t: int): (r: AckedStats)
    ensures r.ackedBytes == (if fs.AckSeen then Sub32(ack, fs.PriorAck) else 0)
    ensures r.fs.AckedBytes == fs.AckedBytes + r.ackedBytes
    ensures r.fs.AckSeen && r.fs.PriorAck == ack
    ensures !fs.AckSeen ==> r.fs.FirstAckTime == Some(t) && r.fs.LastAckTime == Some(t)
    ensures fs.AckSeen ==> r.fs.FirstAckTime == fs.FirstAckTime
    ensures fs.AckSeen ==> r.fs.LastAckTime == if r.ackedBytes > 0 then Some(t) else fs.LastAckTime
    ensures r.fs.(AckedBytes := fs.AckedBytes, AckSeen := fs.AckSeen, FirstAckTime := fs.FirstAckTime,
                  LastAckTime := fs.LastAckTime, PriorAck := fs.PriorAck) == fs
  {
    if fs.AckSeen then
      var b := Sub32(ack, fs.PriorAck);
      AckedStats(fs.(AckedBytes := fs.AckedBytes + b,
                     LastAckTime := if b > 0 then Some(t) else fs.LastAckTime,
                     PriorAck := ack), b)
    else
      AckedStats(fs.(AckSeen := true, FirstAckTime := Some(t), LastAckTime := Some(t), PriorAck := ack), 0)
  }

  /** main.go:296-303: when bytes were acknowledged, the reverse direction's
      send time for `Ack - ackedBytes`, if recorded, adds its RTT to the
      total, is counted and is removed. */
  function MatchSeq(fsr: OneWayStats, ack: uint32, ackedBytes: nat, t: int): (r: OneWayStats)
    requires ackedBytes < TWO32
    ensures var key := Sub32(ack, ackedBytes);
            if ackedBytes > 0 && key in fsr.SeqTimes then
              && r.TotalSeqRTT == fsr.TotalSeqRTT + (t - fsr.SeqTimes[key])
              && r.SeqRTTCount == fsr.SeqRTTCount + 1
              && r.SeqTimes == fsr.SeqTimes - {key}
            else r == fsr
    ensures r.(SeqTimes := fsr.SeqTimes, TotalSeqRTT := fsr.TotalSeqRTT, SeqRTTCount := fsr.SeqRTTCount) == fsr
  {
    var key := Sub32(ack, ackedBytes);
    if ackedBytes > 0 && key in fsr.SeqTimes then
      fsr.(TotalSeqRTT := fsr.TotalSeqRTT + (t - fsr.SeqTimes[key]),
           SeqRTTCount := fsr.SeqRTTCount + 1,
           SeqTimes := fsr.SeqTimes - {key})
    else fsr
  }

  /** main.go:305-318: the timestamps option records the TSval's send time
      on the packet's own side; an echoed TSecr found on the reverse side
      adds its RTT to the total, is counted and is removed. */
  function EchoTimestamps(s: Sides, opt: Option<TSOption>, t: int): (r: Sides)
    ensures opt.None? ==> r == s
    ensures opt.Some? ==> r.fs == s.fs.(TSValTimes := s.fs.TSValTimes[opt.value.TSVal := t])
    ensures opt.Some? && opt.value.TSEcr in s.fsr.TSValTimes ==>
              var e := opt.value.TSEcr;
              && r.fsr.TotalTSValRTT == s.fsr.TotalTSValRTT + (t - s.fsr.TSValTimes[e])
              && r.fsr.TSValRTTCount == s.fsr.TSValRTTCount + 1
              && r.fsr.TSValTimes == s.fsr.TSValTimes - {e}
    ensures opt.Some? && opt.value.TSEcr !in s.fsr.TSValTimes ==> r.fsr == s.fsr
    ensures r.fsr.(TSValTimes := s.fsr.TSValTimes, TotalTSValRTT := s.fsr.TotalTSValRTT,
                   TSValRTTCount := s.fsr.TSValRTTCount) == s.fsr
  {
    match opt
    case None => s
    case Some(o) =>
      var fs := s.fs.(TSValTimes := s.fs.TSValTimes[o.TSVal := t]);
      if o.TSEcr in s.fsr.TSValTimes then
        Sides(fs, s.fsr.(TotalTSValRTT := s.fsr.TotalTSValRTT + (t - s.fsr.TSValTimes[o.TSEcr]),
                         TSValRTTCount := s.fsr.TSValRTTCount + 1,
                         TSValTimes := s.fsr.TSValTimes - {o.TSEcr}))
      else Sides(fs, s.fsr)
  }

  /** The two records after the ACK handling and the bytes it acknowledged. */
  datatype AckedSides = AckedSides(sides: Sides, ackedBytes: nat)

  /** main.go:281-319: an ACK moves the ack clock, may consume a send time of
      the reverse direction and reads the timestamps option; a segment
      without ACK acknowledges nothing and changes neither record. */
  function Acknowledge(s: Sides, tcp: TCPHeader, t: int): (r: AckedSides)
    ensures !tcp.ACK ==> r == AckedSides(s, 0)
    ensures tcp.ACK ==> r.ackedBytes == Ack(s.fs, tcp.Ack, t).ackedBytes
    ensures r.ackedBytes < TWO32
    // The own record: the ack clock moves, and the TSval's send time is recorded.
    ensures tcp.ACK ==>
              var a := Ack(s.fs, tcp.Ack, t).fs;
              r.sides.fs == match tcp.Timestamps
                            case None => a
                            case Some(o) => a.(TSValTimes := a.TSValTimes[o.TSVal := t])
    // The reverse record: the seq-RTT match at `Ack - ackedBytes`, then the TSecr match.
    ensures tcp.ACK ==>
              r.sides.fsr == EchoTimestamps(Sides(s.fs, MatchSeq(s.fsr, tcp.Ack, r.ackedBytes, t)), tcp.Timestamps, t).fsr
    ensures r.sides.fs.(AckedBytes := s.fs.AckedBytes, AckSeen := s.fs.AckSeen, FirstAckTime := s.fs.FirstAckTime,
                        LastAckTime := s.fs.LastAckTime, PriorAck := s.fs.PriorAck, TSValTimes := s.fs.TSValTimes) == s.fs
    ensures PeerOnly(s.fsr, r.sides.fsr)
  {
    if tcp.ACK then
      var a := Ack(s.fs, tcp.Ack, t);
      AckedSides(EchoTimestamps(Sides(a.fs, MatchSeq(s.fsr, tcp.Ack, a.ackedBytes, t)), tcp.Timestamps, t),
                 a.ackedBytes)
    else AckedSides(s, 0)
  }

  /** main.go:321-333: a segment carries data when its IPv4 total length
      exceeds the header lengths (a signed comparison), or when its IPv6
      payload length is positive. */
  predicate HasPayload(ip: IPHeader, tcp: TCPHeader) {
    if ip.IPv4? then ip.Length - 4 * ip.IHL - 4 * tcp.DataOffset > 0 else ip.Length > 0
  }

  /** main.go:321-333: a data-bearing segment records its sequence number's
      send time; every segment adds the IP length field to `IPBytes`, which
      for IPv6 is the payload length without the fixed header. */
  function Payload(fs: OneWayStats, ip: IPHeader, tcp: TCPHeader, t: int): (r: OneWayStats)
    ensures r.SeqTimes == if HasPayload(ip, tcp) then fs.SeqTimes[tcp.Seq := t] else fs.SeqTimes
    ensures r.IPBytes == fs.IPBytes + ip.Length
    ensures r.(SeqTimes := fs.SeqTimes, IPBytes := fs.IPBytes) == fs
  {
    var w := if HasPayload(ip, tcp) then fs.(SeqTimes := fs.SeqTimes[tcp.Seq := t]) else fs;
    w.(IPBytes := w.IPBytes + ip.Length)
  }

  /** Whether a segment's signals are counted: not on a SYN, FIN or RST. */
  predicate CountsSignals(tcp: TCPHeader) {
    !tcp.SYN && !tcp.FIN && !tcp.RST
  }

  /** main.go:335-355: a segment other than a SYN, FIN or RST is counted as a
      data packet, whether or not it carries data, together with its CWR,
      ECE and NS flags (NS with the bytes it acknowledged) and an SCE or CE
      mark in the ECN field. */
  function Signals(fs: OneWayStats, tcp: TCPHeader, dscp: uint8, ackedBytes: nat): (r: OneWayStats)
    requires CountsSignals(tcp)
    ensures r.DataPackets == fs.DataPackets + 1
    ensures r.CWR == fs.CWR + (if tcp.CWR then 1 else 0)
    ensures r.ECE == fs.ECE + (if tcp.ECE then 1 else 0)
    ensures r.ESCE == fs.ESCE + (if tcp.NS then 1 else 0)
    ensures r.ESCEAckedBytes == fs.ESCEAckedBytes + (if tcp.NS then ackedBytes else 0)
    ensures r.SCE == fs.SCE + (if ECNField(dscp) == SCE then 1 else 0)
    ensures r.CE == fs.CE + (if ECNField(dscp) == CE then 1 else 0)
    ensures r.(DataPackets := fs.DataPackets, CWR := fs.CWR, ECE := fs.ECE, ESCE := fs.ESCE,
               ESCEAckedBytes := fs.ESCEAckedBytes, SCE := fs.SCE, CE := fs.CE) == fs
  {
    MarkECN(fs.(DataPackets := fs.DataPackets + 1,
                CWR := fs.CWR + (if tcp.CWR then 1 else 0),
                ECE := fs.ECE + (if tcp.ECE then 1 else 0),
                ESCE := fs.ESCE + (if tcp.NS then 1 else 0),
                ESCEAckedBytes := fs.ESCEAckedBytes + (if tcp.NS then ackedBytes else 0)),
            dscp)
  }

  /** main.go:347-353: an SCE or a CE mark in the ECN field is counted. */
  function MarkECN(fs: OneWayStats, dscp: uint8): (r: OneWayStats)
    ensures r.SCE == fs.SCE + (if ECNField(dscp) == SCE then 1 else 0)
    ensures r.CE == fs.CE + (if ECNField(dscp) == CE then 1 else 0)
    ensures r.(SCE := fs.SCE, CE := fs.CE) == fs
  {
    var ecn := ECNField(dscp);
    if ecn == SCE then fs.(SCE := fs.SCE + 1)
    else if ecn == CE then fs.(CE := fs.CE + 1)
    else fs
  }

  /** main.go:335-357: the signals of a segment that carries them, then the
      packet count. */
  function Tally(fs: OneWayStats, tcp: TCPHeader, dscp: uint8, ackedBytes: nat): (r: OneWayStats)
    ensures r.Packets == fs.Packets + 1
    ensures CountsSignals(tcp) ==> r.(Packets := fs.Packets) == Signals(fs, tcp, dscp, ackedBytes)
    ensures !CountsSignals(tcp) ==> r == fs.(Packets := fs.Packets + 1)
  {
    var w := if CountsSignals(tcp) then Signals(fs, tcp, dscp, ackedBytes) else fs;
    w.(Packets := w.Packets + 1)
  }

  /** `r` is `fs` with the signals of a segment counted: its CWR, ECE and NS
      flags (NS with the bytes it acknowledged) and an SCE or CE mark. */
  predicate SignalsCounted(fs: OneWayStats, r: OneWayStats, tcp: TCPHeader, dscp: uint8, ackedBytes: nat) {
    && r.CWR == fs.CWR + (if tcp.CWR then 1 else 0)
    && r.ECE == fs.ECE + (if tcp.ECE then 1 else 0)
    && r.ESCE == fs.ESCE + (if tcp.NS then 1 else 0)
    && r.ESCEAckedBytes == fs.ESCEAckedBytes + (if tcp.NS then ackedBytes else 0)
    && r.SCE == fs.SCE + (if ECNField(dscp) == SCE then 1 else 0)
    && r.CE == fs.CE + (if ECNField(dscp) == CE then 1 else 0)
  }

  /** `a` and `b` agree on every signal counter. */
  predicate SameSignals(a: OneWayStats, b: OneWayStats) {
    && a.CWR == b.CWR && a.ECE == b.ECE && a.ESCE == b.ESCE && a.ESCEAckedBytes == b.ESCEAckedBytes
    && a.SCE == b.SCE && a.CE == b.CE
  }

  /** The packet's own record after the segment, from the record after the
      ACK handling. */
  function Finish(a: AckedSides, p: Packet, tcp: TCPHeader): (r: OneWayStats)
    ensures r.Packets == a.sides.fs.Packets + 1
    ensures r.IPBytes == a.sides.fs.IPBytes + p.IP.Length
    ensures r.DataPackets == a.sides.fs.DataPackets + (if CountsSignals(tcp) then 1 else 0)
    ensures r.SeqTimes == if HasPayload(p.IP, tcp) then a.sides.fs.SeqTimes[tcp.Seq := p.Time] else a.sides.fs.SeqTimes
    ensures CountsSignals(tcp) ==> SignalsCounted(a.sides.fs, r, tcp, p.IP.DSCP(), a.ackedBytes)
    ensures !CountsSignals(tcp) ==> SameSignals(r, a.sides.fs)
  {
    Tally(Payload(a.sides.fs, p.IP, tcp, p.Time), tcp, p.IP.DSCP(), a.ackedBytes)
  }

  /** main.go:271-357: the update of flow `f` by a TCP segment travelling in
      direction `dir`: the ACK handling with both RTT correlators, the
      payload and byte counts, the signals and the packet count. */
  function Segment(f: Flow, dir: Direction, p: Packet, tcp: TCPHeader): (g: Flow)
    ensures g.Index == f.Index && FlowEnds(g) == FlowEnds(f)
  {
    var a := Acknowledge(Split(f, dir), tcp, p.Time);
    Join(f, dir, Sides(Finish(a, p, tcp), a.sides.fsr))
  }

  // ---------------------------------------------------------------------------
  // Properties of a segment
  // ---------------------------------------------------------------------------

  /** When an ACK acknowledged new bytes, the send time it consumes is the one
      recorded for the previous ack number: its RTT `t - sent` is added to
      the total once and the entry is removed. A duplicate ACK consumes
      nothing. */
  lemma SeqSampleAtPriorAck(fs: OneWayStats, fsr: OneWayStats, ack: uint32, t: int)
    requires fs.AckSeen
    ensures var a := Ack(fs, ack, t);
            && (a.ackedBytes > 0 && fs.PriorAck in fsr.SeqTimes ==>
                  var r := MatchSeq(fsr, ack, a.ackedBytes, t);
                  && r.TotalSeqRTT == fsr.TotalSeqRTT + (t - fsr.SeqTimes[fs.PriorAck])
                  && r.SeqRTTCount == fsr.SeqRTTCount + 1
                  && r.SeqTimes == fsr.SeqTimes - {fs.PriorAck})
            && (ack == fs.PriorAck ==> MatchSeq(fsr, ack, a.ackedBytes, t) == fsr)
  {
    var a := Ack(fs, ack, t);
    if a.ackedBytes > 0 {
      assert Add32(fs.PriorAck, a.ackedBytes) == ack;
      SubAfterAdd(fs.PriorAck, a.ackedBytes);
    }
  }

  /** An echoed TSecr is matched at most once: echoing it again adds nothing
      to the total or the count. */
  lemma RepeatedTSEcrAddsNothing(s: Sides, o: TSOption, t: int, t': int)
    ensures var r := EchoTimestamps(s, Some(o), t);
            EchoTimestamps(r, Some(o), t').fsr == r.fsr
  {
    var r := EchoTimestamps(s, Some(o), t);
    assert o.TSEcr !in r.fsr.TSValTimes;
  }

  /** The two records of a flow after a segment, named by the steps. */
  lemma SegmentSides(f: Flow, dir: Direction, p: Packet, tcp: TCPHeader)
    ensures var a := Acknowledge(Split(f, dir), tcp, p.Time);
            Split(Segment(f, dir, p, tcp), dir) == Sides(Finish(a, p, tcp), a.sides.fsr)
  {
  }

  /** Every TCP packet is counted in its own direction with its IP length
      field; every segment other than a SYN, FIN or RST counts as a data
      packet, with or without payload; the reverse record only loses matched
      send times and gains RTTs. */
  lemma SegmentCounts(f: Flow, dir: Direction, p: Packet, tcp: TCPHeader)
    ensures var before, after := Split(f, dir), Split(Segment(f, dir, p, tcp), dir);
            && after.fs.Packets == before.fs.Packets + 1
            && after.fs.IPBytes == before.fs.IPBytes + p.IP.Length
            && after.fs.DataPackets == before.fs.DataPackets + (if CountsSignals(tcp) then 1 else 0)
            && PeerOnly(before.fsr, after.fsr)
  {
    var s := Split(f, dir);
    var a := Acknowledge(s, tcp, p.Time);
    SegmentSides(f, dir, p, tcp);
    var w := Payload(a.sides.fs, p.IP, tcp, p.Time);
    assert w.Packets == s.fs.Packets && w.IPBytes == s.fs.IPBytes + p.IP.Length;
    assert w.DataPackets == s.fs.DataPackets;
  }

  /** Timestamps are read only from ACKs: a segment without ACK records no
      TSval and leaves the reverse record as it was. */
  lemma TimestampsOnlyOnAcks(f: Flow, dir: Direction, p: Packet, tcp: TCPHeader)
    requires !tcp.ACK
    ensures var before, after := Split(f, dir), Split(Segment(f, dir, p, tcp), dir);
            after.fs.TSValTimes == before.fs.TSValTimes && after.fsr == before.fsr
  {
    SegmentSides(f, dir, p, tcp);
  }

  /** After a segment, the packet's own record has the ack clock, prior ack
      and acknowledged bytes that `Ack` computes when it is an ACK and the old
      ones otherwise, and the send time of its TSval when an ACK carries the
      timestamps option; the reverse record has gained exactly the seq-RTT
      and TSecr samples the ACK matched. */
  lemma SegmentAcks(f: Flow, dir: Direction, p: Packet, tcp: TCPHeader)
    ensures var before, after := Split(f, dir), Split(Segment(f, dir, p, tcp), dir);
            var a := Ack(before.fs, tcp.Ack, p.Time);
            var w := if tcp.ACK then a.fs else before.fs;
            && after.fs.AckedBytes == w.AckedBytes && after.fs.AckSeen == w.AckSeen
            && after.fs.FirstAckTime == w.FirstAckTime && after.fs.LastAckTime == w.LastAckTime
            && after.fs.PriorAck == w.PriorAck
            && after.fs.TSValTimes == (if tcp.ACK && tcp.Timestamps.Some?
                                       then before.fs.TSValTimes[tcp.Timestamps.value.TSVal := p.Time]
                                       else before.fs.TSValTimes)
            && after.fsr == (if tcp.ACK
                             then EchoTimestamps(Sides(before.fs, MatchSeq(before.fsr, tcp.Ack, a.ackedBytes, p.Time)),
                                                 tcp.Timestamps, p.Time).fsr
                             else before.fsr)
  {
    var s := Split(f, dir);
    var r := Acknowledge(s, tcp, p.Time);
    SegmentSides(f, dir, p, tcp);
    var v := Payload(r.sides.fs, p.IP, tcp, p.Time);
    assert v.AckedBytes == r.sides.fs.AckedBytes && v.TSValTimes == r.sides.fs.TSValTimes;
  }

  /** A segment other than a SYN, FIN or RST counts its CWR, ECE and NS
      flags (NS with the bytes its ACK acknowledged) and an SCE or CE mark in
      the ECN field of its TOS or traffic class; a SYN, FIN or RST counts
      none of them. */
  lemma SegmentSignals(f: Flow, dir: Direction, p: Packet, tcp: TCPHeader)
    ensures var before, after := Split(f, dir).fs, Split(Segment(f, dir, p, tcp), dir).fs;
            var acked := if tcp.ACK then Ack(before, tcp.Ack, p.Time).ackedBytes else 0;
            && (CountsSignals(tcp) ==> SignalsCounted(before, after, tcp, p.IP.DSCP(), acked))
            && (!CountsSignals(tcp) ==> SameSignals(after, before))
  {
    var s := Split(f, dir);
    var a := Acknowledge(s, tcp, p.Time);
    SegmentSides(f, dir, p, tcp);
    assert SameSignals(a.sides.fs, s.fs);
  }

  /** A segment's send time is recorded exactly when it carries data. */
  lemma PayloadRecorded(f: Flow, dir: Direction, p: Packet, tcp: TCPHeader)
    ensures var before, after := Split(f, dir).fs, Split(Segment(f, dir, p, tcp), dir).fs;
            after.SeqTimes == if HasPayload(p.IP, tcp) then before.SeqTimes[tcp.Seq := p.Time] else before.SeqTimes
  {
    var s := Split(f, dir);
    SegmentSides(f, dir, p, tcp);
  }

  /** Relations between the counters of one direction that every packet
      keeps: an ack clock with both times once an ACK was seen, no signal
      counted more often than data packets, no more data packets than
      packets, and no more bytes credited to echoed SCE than acknowledged. */
  predicate StatsConsistent(w: OneWayStats) {
    && (w.AckSeen ==> w.FirstAckTime.Some? && w.LastAckTime.Some?)
    && w.DataPackets <= w.Packets
    && w.CWR <= w.DataPackets && w.ECE <= w.DataPackets && w.ESCE <= w.DataPackets
    && w.CE + w.SCE <= w.DataPackets
    && w.ESCEAckedBytes <= w.AckedBytes
  }

  /** `StatsConsistent` for a record whose segment is acknowledged and not yet
      counted: the bytes it acknowledged are already in `AckedBytes`. */
  predicate Acked(w: OneWayStats, ackedBytes: nat) {
    && (w.AckSeen ==> w.FirstAckTime.Some? && w.LastAckTime.Some?)
    && w.DataPackets <= w.Packets
    && w.CWR <= w.DataPackets && w.ECE <= w.DataPackets && w.ESCE <= w.DataPackets
    && w.CE + w.SCE <= w.DataPackets
    && w.ESCEAckedBytes + ackedBytes <= w.AckedBytes
  }

  /** The ACK handling credits the bytes it acknowledged to `AckedBytes`
      before the signals may credit them to `ESCEAckedBytes`. */
  lemma AcknowledgeCredits(s: Sides, tcp: TCPHeader, t: int)
    requires StatsConsistent(s.fs)
    ensures var a := Acknowledge(s, tcp, t);
            Acked(a.sides.fs, a.ackedBytes)
  {
  }

  /** The payload, signal and packet counts complete a consistent record. */
  lemma FinishKeepsConsistent(a: AckedSides, p: Packet, tcp: TCPHeader)
    requires Acked(a.sides.fs, a.ackedBytes)
    ensures StatsConsistent(Finish(a, p, tcp))
  {
    var w := Payload(a.sides.fs, p.IP, tcp, p.Time);
    assert Acked(w, a.ackedBytes);
  }

  /** Both records of a flow are consistent. */
  predicate FlowConsistent(f: Flow) {
    StatsConsistent(f.Up) && StatsConsistent(f.Down)
  }

  /** A segment keeps both records of its flow consistent. */
  lemma SegmentKeepsConsistent(f: Flow, dir: Direction, p: Packet, tcp: TCPHeader)
    requires FlowConsistent(f)
    ensures FlowConsistent(Segment(f, dir, p, tcp))
  {
    var s := Split(f, dir);
    var a := Acknowledge(s, tcp, p.Time);
    assert StatsConsistent(s.fs) && StatsConsistent(s.fsr);
    SegmentSides(f, dir, p, tcp);
    AcknowledgeCredits(s, tcp, p.Time);
    FinishKeepsConsistent(a, p, tcp);
    assert StatsConsistent(a.sides.fsr);
  }

  // ---------------------------------------------------------------------------
  // The recorder
  // ---------------------------------------------------------------------------

  /** A snapshot of the recorder's flow tables and counters. */
  datatype Tables = Tables(
    IP4Flows: map<IP4FlowKey, Flow>, IP6Flows: map<IP6FlowKey, Flow>,
    FlowIndex: nat, PacketsCaptured: nat)

  /** Both tables keep the flow-table invariant with the one `FlowIndex`
      shared by both, their indices are distinct across the tables, and
      there are exactly `FlowIndex` flows. */
  ghost predicate Valid(s: Tables) {
    ValidTables(s.IP4Flows, s.IP6Flows, s.FlowIndex)
  }

  ghost predicate ValidTables(m4: map<IP4FlowKey, Flow>, m6: map<IP6FlowKey, Flow>, n: nat) {
    && TableOK(m4, RevIP4, Ends4, FlowEnds, FlowIdx, n)
    && TableOK(m6, RevIP6, Ends6, FlowEnds, FlowIdx, n)
    && Apart(m4, m6, FlowIdx, FlowIdx)
    && |m4| + |m6| == n
  }

  /** Every record of every flow is consistent. */
  ghost predicate AllConsistent(s: Tables) {
    && (forall k :: k in s.IP4Flows ==> FlowConsistent(s.IP4Flows[k]))
    && (forall k :: k in s.IP6Flows ==> FlowConsistent(s.IP6Flows[k]))
  }

  /** main.go:224-227 */
  function Key4(src: Addr4, dst: Addr4, tcp: TCPHeader): (k: IP4FlowKey)
    ensures Ends4(k) == FlowData.Ends(src, tcp.SrcPort, dst, tcp.DstPort)
  {
    IP4FlowKey(src, tcp.SrcPort, dst, tcp.DstPort)
  }

  /** main.go:246-249 */
  function Key6(src: Addr6, dst: Addr6, tcp: TCPHeader): (k: IP6FlowKey)
    ensures Ends6(k) == FlowData.Ends(src, tcp.SrcPort, dst, tcp.DstPort)
  {
    IP6FlowKey(src, tcp.SrcPort, dst, tcp.DstPort)
  }

  /** main.go:223-244, 271-357: an IPv4 segment updates the flow under its
      key (up), else the flow under the reverse key (down), else a new flow
      stored under its key with the next index. */
  function Step4(s: Tables, p: Packet, k: IP4FlowKey, tcp: TCPHeader): Tables {
    var slot := Locate(s.IP4Flows, k, RevIP4(k));
    var f := Current(s.IP4Flows, k, RevIP4(k), NewFlow(s.FlowIndex, Ends4(k)));
    s.(IP4Flows := s.IP4Flows[slot.key := Segment(f, slot.dir, p, tcp)],
       FlowIndex := if slot.created then s.FlowIndex + 1 else s.FlowIndex)
  }

  /** main.go:245-357: the same for IPv6. */
  function Step6(s: Tables, p: Packet, k: IP6FlowKey, tcp: TCPHeader): Tables {
    var slot := Locate(s.IP6Flows, k, RevIP6(k));
    var f := Current(s.IP6Flows, k, RevIP6(k), NewFlow(s.FlowIndex, Ends6(k)));
    s.(IP6Flows := s.IP6Flows[slot.key := Segment(f, slot.dir, p, tcp)],
       FlowIndex := if slot.created then s.FlowIndex + 1 else s.FlowIndex)
  }

  /** main.go:209-358: one decoded packet. Every packet is counted; a TCP
      packet then updates its flow. */
  function Step(s: Tables, p: Packet): Tables {
    var s1 := s.(PacketsCaptured := s.PacketsCaptured + 1);
    match p.TCP
    case None => s1
    case Some(tcp) =>
      match p.IP
      case IPv4(src, dst, _, _, _) => Step4(s1, p, Key4(src, dst, tcp), tcp)
      case IPv6(src, dst, _, _) => Step6(s1, p, Key6(src, dst, tcp), tcp)
  }

  /** The recorder after a sequence of packets. */
  function Run(s: Tables, ps: seq<Packet>): Tables {
    if ps == [] then s else Step(Run(s, ps[..|ps| - 1]), ps[|ps| - 1])
  }

  /** Every decoded packet is counted, TCP or not; a packet without TCP
      touches neither the flow tables nor the flow index. */
  lemma StepCountsPacket(s: Tables, p: Packet)
    ensures Step(s, p).PacketsCaptured == s.PacketsCaptured + 1
    ensures p.TCP.None? ==> Step(s, p) == s.(PacketsCaptured := s.PacketsCaptured + 1)
  {
  }

  /** A TCP-over-IPv4 packet works on the flow under its own key as the up
      side, else on the flow under the reverse key as the down side, else on
      a new flow with index `FlowIndex` stored under its own key only, and
      `FlowIndex` advances. */
  lemma Step4Resolves(s: Tables, p: Packet, src: Addr4, dst: Addr4, tcp: TCPHeader)
    requires p.IP.IPv4? && p.IP.Src4 == src && p.IP.Dst4 == dst && p.TCP == Some(tcp)
    ensures var k, m, r := Key4(src, dst, tcp), s.IP4Flows, Step(s, p);
            && (k in m ==> r.FlowIndex == s.FlowIndex && r.IP4Flows == m[k := Segment(m[k], Up, p, tcp)])
            && (k !in m && k.Reverse() in m ==>
                  r.FlowIndex == s.FlowIndex && r.IP4Flows == m[k.Reverse() := Segment(m[k.Reverse()], Down, p, tcp)])
            && (k !in m && k.Reverse() !in m ==>
                  r.FlowIndex == s.FlowIndex + 1 &&
                  r.IP4Flows == m[k := Segment(NewFlow(s.FlowIndex, Ends4(k)), Up, p, tcp)])
            && r.IP6Flows == s.IP6Flows
  {
  }

  /** The same for TCP over IPv6. */
  lemma Step6Resolves(s: Tables, p: Packet, src: Addr6, dst: Addr6, tcp: TCPHeader)
    requires p.IP.IPv6? && p.IP.Src6 == src && p.IP.Dst6 == dst && p.TCP == Some(tcp)
    ensures var k, m, r := Key6(src, dst, tcp), s.IP6Flows, Step(s, p);
            && (k in m ==> r.FlowIndex == s.FlowIndex && r.IP6Flows == m[k := Segment(m[k], Up, p, tcp)])
            && (k !in m && k.Reverse() in m ==>
                  r.FlowIndex == s.FlowIndex && r.IP6Flows == m[k.Reverse() := Segment(m[k.Reverse()], Down, p, tcp)])
            && (k !in m && k.Reverse() !in m ==>
                  r.FlowIndex == s.FlowIndex + 1 &&
                  r.IP6Flows == m[k := Segment(NewFlow(s.FlowIndex, Ends6(k)), Up, p, tcp)])
            && r.IP4Flows == s.IP4Flows
  {
  }

  /** A TCP-over-IPv4 packet keeps the recorder valid. */
  lemma {:induction false} Step4KeepsValid(s: Tables, p: Packet)
    requires Valid(s) && p.TCP.Some? && p.IP.IPv4?
    ensures Valid(Step(s, p))
  {
    var tcp := p.TCP.value;
    var k := Key4(p.IP.Src4, p.IP.Dst4, tcp);
    var m, o, n := s.IP4Flows, s.IP6Flows, s.FlowIndex;
    var slot := Locate(m, k, RevIP4(k));
    var newFlow := NewFlow(n, Ends4(k));
    var f' := Segment(Current(m, k, RevIP4(k), newFlow), slot.dir, p, tcp);
    var r := Step(s, p);
    assert r.IP4Flows == m[slot.key := f'] && r.IP6Flows == o;
    assert r.FlowIndex == if slot.created then n + 1 else n;
    KeyReverseInvolutions();
    PlaceKeepsTable(m, k, RevIP4, Ends4, FlowEnds, FlowIdx, n, newFlow, f');
    TableOKWiden(o, RevIP6, Ends6, FlowEnds, FlowIdx, n, r.FlowIndex);
    PlaceKeepsApart(m, o, FlowIdx, FlowIdx, k, RevIP4, n, newFlow, f');
  }

  /** A TCP-over-IPv6 packet keeps the recorder valid. */
  lemma {:induction false} Step6KeepsValid(s: Tables, p: Packet)
    requires Valid(s) && p.TCP.Some? && p.IP.IPv6?
    ensures Valid(Step(s, p))
  {
    var tcp := p.TCP.value;
    var k := Key6(p.IP.Src6, p.IP.Dst6, tcp);
    var m, o, n := s.IP6Flows, s.IP4Flows, s.FlowIndex;
    var slot := Locate(m, k, RevIP6(k));
    var newFlow := NewFlow(n, Ends6(k));
    var f' := Segment(Current(m, k, RevIP6(k), newFlow), slot.dir, p, tcp);
    var r := Step(s, p);
    assert r.IP6Flows == m[slot.key := f'] && r.IP4Flows == o;
    assert r.FlowIndex == if slot.created then n + 1 else n;
    KeyReverseInvolutions();
    PlaceKeepsTable(m, k, RevIP6, Ends6, FlowEnds, FlowIdx, n, newFlow, f');
    TableOKWiden(o, RevIP4, Ends4, FlowEnds, FlowIdx, n, r.FlowIndex);
    ApartSymmetric(o, m, FlowIdx, FlowIdx);
    PlaceKeepsApart(m, o, FlowIdx, FlowIdx, k, RevIP6, n, newFlow, f');
    ApartSymmetric(o, r.IP6Flows, FlowIdx, FlowIdx);
  }

  /** Each packet keeps the recorder valid: no key stored with its reverse,
      each flow under its first packet's key, indices distinct and numbered
      in creation order across both tables. */
  lemma StepKeepsValid(s: Tables, p: Packet)
    requires Valid(s)
    ensures Valid(Step(s, p))
  {
    if p.TCP.Some? {
      if p.IP.IPv4? {
        Step4KeepsValid(s, p);
      } else {
        Step6KeepsValid(s, p);
      }
    }
  }

  /** Each packet keeps every record consistent. */
  lemma StepKeepsConsistent(s: Tables, p: Packet)
    requires AllConsistent(s)
    ensures AllConsistent(Step(s, p))
  {
    if p.TCP.Some? {
      if p.IP.IPv4? {
        Step4KeepsConsistent(s, p);
      } else {
        Step6KeepsConsistent(s, p);
      }
    }
  }

  /** A TCP-over-IPv4 packet keeps every record consistent. */
  lemma Step4KeepsConsistent(s: Tables, p: Packet)
    requires AllConsistent(s) && p.TCP.Some? && p.IP.IPv4?
    ensures AllConsistent(Step(s, p))
  {
    var tcp := p.TCP.value;
    var k := Key4(p.IP.Src4, p.IP.Dst4, tcp);
    var m := s.IP4Flows;
    var slot := Locate(m, k, RevIP4(k));
    var f := Current(m, k, RevIP4(k), NewFlow(s.FlowIndex, Ends4(k)));
    assert FlowConsistent(f);
    SegmentKeepsConsistent(f, slot.dir, p, tcp);
    assert Step(s, p).IP4Flows == m[slot.key := Segment(f, slot.dir, p, tcp)];
  }

  /** A TCP-over-IPv6 packet keeps every record consistent. */
  lemma Step6KeepsConsistent(s: Tables, p: Packet)
    requires AllConsistent(s) && p.TCP.Some? && p.IP.IPv6?
    ensures AllConsistent(Step(s, p))
  {
    var tcp := p.TCP.value;
    var k := Key6(p.IP.Src6, p.IP.Dst6, tcp);
    var m := s.IP6Flows;
    var slot := Locate(m, k, RevIP6(k));
    var f := Current(m, k, RevIP6(k), NewFlow(s.FlowIndex, Ends6(k)));
    assert FlowConsistent(f);
    SegmentKeepsConsistent(f, slot.dir, p, tcp);
    assert Step(s, p).IP6Flows == m[slot.key := Segment(f, slot.dir, p, tcp)];
  }

  /** From the recorder `main` creates, any sequence of packets leaves it
      valid, every record consistent and the packet count the number of
      packets. */
  lemma {:induction false} RunFromEmpty(ps: seq<Packet>)
    ensures var r := Run(Tables(map[], map[], 0, 0), ps);
            Valid(r) && AllConsistent(r) && r.PacketsCaptured == |ps|
  {
    if ps != [] {
      var init := ps[..|ps| - 1];
      RunFromEmpty(init);
      var r0 := Run(Tables(map[], map[], 0, 0), init);
      StepKeepsValid(r0, ps[|ps| - 1]);
      StepKeepsConsistent(r0, ps[|ps| - 1]);
      StepCountsPacket(r0, ps[|ps| - 1]);
    }
  }

  // ---------------------------------------------------------------------------
  // The packet loop
  // ---------------------------------------------------------------------------

  /** main.go:110-122, without the pcap handle and the wall-clock times. */
  class Recorder {
    var IP4Flows: map<IP4FlowKey, Flow>
    var IP6Flows: map<IP6FlowKey, Flow>
    var FlowIndex: nat
    var PacketsCaptured: nat

    /** main.go:590-594: empty flow tables, counters 0. */
    constructor ()
      ensures IP4Flows == map[] && IP6Flows == map[]
      ensures FlowIndex == 0 && PacketsCaptured == 0
    {
      IP4Flows := map[];
      IP6Flows := map[];
      FlowIndex := 0;
      PacketsCaptured := 0;
    }

    function Snapshot(): Tables
      reads this
    {
      Tables(IP4Flows, IP6Flows, FlowIndex, PacketsCaptured)
    }

    /** main.go:209-358: one packet applied to the recorder in place. */
    method RecordPacket(p: Packet)
      modifies this
      ensures Snapshot() == Step(old(Snapshot()), p)
    {
      PacketsCaptured := PacketsCaptured + 1;
      if p.TCP.None? {
        return;
      }
      var tcp := p.TCP.value;

      match p.IP
      case IPv4(src, dst, _, _, _) =>
        var k := Key4(src, dst, tcp);
        var key, dir, f := k, Up, NewFlow(FlowIndex, Ends4(k));
        if k in IP4Flows {
          f := IP4Flows[k];
        } else if k.Reverse() in IP4Flows {
          key, dir := k.Reverse(), Down;
          f := IP4Flows[key];
        } else {
          FlowIndex := FlowIndex + 1;
        }
        f := UpdateFlow(f, dir, p, tcp);
        IP4Flows := IP4Flows[key := f];
      case IPv6(src, dst, _, _) =>
        var k := Key6(src, dst, tcp);
        var key, dir, f := k, Up, NewFlow(FlowIndex, Ends6(k));
        if k in IP6Flows {
          f := IP6Flows[k];
        } else if k.Reverse() in IP6Flows {
          key, dir := k.Reverse(), Down;
          f := IP6Flows[key];
        } else {
          FlowIndex := FlowIndex + 1;
        }
        f := UpdateFlow(f, dir, p, tcp);
        IP6Flows := IP6Flows[key := f];
    }

    /** main.go:153-360: the packet loop over the decoded packets. From a new
        recorder, the result is valid, its records are consistent and every
        packet is counted. */
    method RecordFromChannel(packets: seq<Packet>)
      modifies this
      ensures Snapshot() == Run(old(Snapshot()), packets)
      ensures old(Snapshot()) == Tables(map[], map[], 0, 0) ==>
                Valid(Snapshot()) && AllConsistent(Snapshot()) && PacketsCaptured == |packets|
    {
      ghost var s0 := Snapshot();
      for i := 0 to |packets|
        invariant Snapshot() == Run(s0, packets[..i])
      {
        assert packets[..i + 1][..i] == packets[..i];
        RecordPacket(packets[i]);
      }
      assert packets[..|packets|] == packets;
      if s0 == Tables(map[], map[], 0, 0) {
        RunFromEmpty(packets);
      }
    }
  }

  /** main.go:282-303: the ack clock and the seq-RTT correlator. */
  method HandleAck(fs: OneWayStats, fsr: OneWayStats, tcp: TCPHeader, t: int)
    returns (fs': OneWayStats, fsr': OneWayStats, ackedBytes: nat)
    requires tcp.ACK
    ensures var a := Ack(fs, tcp.Ack, t);
            fs' == a.fs && ackedBytes == a.ackedBytes && fsr' == MatchSeq(fsr, tcp.Ack, ackedBytes, t)
  {
    fs', fsr', ackedBytes := fs, fsr, 0;
    if fs'.AckSeen {
      ackedBytes := Sub32(tcp.Ack, fs'.PriorAck);
      fs' := fs'.(AckedBytes := fs'.AckedBytes + ackedBytes);
      if ackedBytes > 0 {
        fs' := fs'.(LastAckTime := Some(t));
      }
    } else {
      fs' := fs'.(AckSeen := true);
      fs' := fs'.(FirstAckTime := Some(t));
      fs' := fs'.(LastAckTime := Some(t));
    }
    fs' := fs'.(PriorAck := tcp.Ack);

    if ackedBytes > 0 {
      var pack := Sub32(tcp.Ack, ackedBytes);
      if pack in fsr'.SeqTimes {
        fsr' := fsr'.(TotalSeqRTT := fsr'.TotalSeqRTT + (t - fsr'.SeqTimes[pack]));
        fsr' := fsr'.(SeqRTTCount := fsr'.SeqRTTCount + 1);
        fsr' := fsr'.(SeqTimes := fsr'.SeqTimes - {pack});
      }
    }
  }

  /** main.go:305-318: the timestamps option of an ACK. */
  method ReadTimestamps(fs: OneWayStats, fsr: OneWayStats, tcp: TCPHeader, t: int)
    returns (fs': OneWayStats, fsr': OneWayStats)
    ensures Sides(fs', fsr') == EchoTimestamps(Sides(fs, fsr), tcp.Timestamps, t)
  {
    fs', fsr' := fs, fsr;
    if tcp.Timestamps.Some? {
      var tsval, tsecr := tcp.Timestamps.value.TSVal, tcp.Timestamps.value.TSEcr;
      fs' := fs'.(TSValTimes := fs'.TSValTimes[tsval := t]);
      if tsecr in fsr'.TSValTimes {
        fsr' := fsr'.(TotalTSValRTT := fsr'.TotalTSValRTT + (t - fsr'.TSValTimes[tsecr]));
        fsr' := fsr'.(TSValRTTCount := fsr'.TSValRTTCount + 1);
        fsr' := fsr'.(TSValTimes := fsr'.TSValTimes - {tsecr});
      }
    }
  }

  /** main.go:321-333: payload, byte count and DSCP by IP version. */
  method RecordPayload(fs: OneWayStats, p: Packet, tcp: TCPHeader)
    returns (fs': OneWayStats, dscp: uint8)
    ensures fs' == Payload(fs, p.IP, tcp, p.Time) && dscp == p.IP.DSCP()
  {
    fs' := fs;
    if p.IP.IPv4? {
      if p.IP.Length - 4 * p.IP.IHL - 4 * tcp.DataOffset > 0 {
        fs' := fs'.(SeqTimes := fs'.SeqTimes[tcp.Seq := p.Time]);
      }
      fs' := fs'.(IPBytes := fs'.IPBytes + p.IP.Length);
      dscp := p.IP.TOS;
    } else {
      if p.IP.Length > 0 {
        fs' := fs'.(SeqTimes := fs'.SeqTimes[tcp.Seq := p.Time]);
      }
      fs' := fs'.(IPBytes := fs'.IPBytes + p.IP.Length);
      dscp := p.IP.TrafficClass;
    }
  }

  /** main.go:336-354: the signals of a segment other than a SYN, FIN or
      RST. */
  method CountSignals(fs: OneWayStats, tcp: TCPHeader, dscp: uint8, ackedBytes: nat)
    returns (fs': OneWayStats)
    requires CountsSignals(tcp)
    ensures fs' == Signals(fs, tcp, dscp, ackedBytes)
  {
    var cwr, ece, esce, esceBytes := fs.CWR, fs.ECE, fs.ESCE, fs.ESCEAckedBytes;
    if tcp.CWR {
      cwr := cwr + 1;
    }
    if tcp.ECE {
      ece := ece + 1;
    }
    if tcp.NS {
      esce := esce + 1;
      esceBytes := esceBytes + ackedBytes;
    }
    fs' := fs.(DataPackets := fs.DataPackets + 1, CWR := cwr, ECE := ece, ESCE := esce,
               ESCEAckedBytes := esceBytes);
    fs' := CountMarks(fs', dscp);
  }

  /** main.go:347-353 */
  method CountMarks(fs: OneWayStats, dscp: uint8) returns (fs': OneWayStats)
    ensures fs' == MarkECN(fs, dscp)
  {
    fs' := fs;
    var ecn := ECNField(dscp);
    if ecn == SCE {
      fs' := fs'.(SCE := fs'.SCE + 1);
    } else if ecn == CE {
      fs' := fs'.(CE := fs'.CE + 1);
    }
  }

  /** main.go:335-357: the signals, then the packet count. */
  method TallySegment(fs: OneWayStats, tcp: TCPHeader, dscp: uint8, ackedBytes: nat)
    returns (fs': OneWayStats)
    ensures fs' == Tally(fs, tcp, dscp, ackedBytes)
  {
    fs' := fs;
    if !tcp.SYN && !tcp.FIN && !tcp.RST {
      fs' := CountSignals(fs, tcp, dscp, ackedBytes);
    }
    fs' := fs'.(Packets := fs'.Packets + 1);
  }

  /** main.go:271-357, block by block on local copies of the flow's two
      records. */
  method UpdateFlow(f: Flow, dir: Direction, p: Packet, tcp: TCPHeader) returns (g: Flow)
    ensures g == Segment(f, dir, p, tcp)
  {
    var t := p.Time;
    var fs, fsr := f.Up, f.Down;
    if dir == Down {
      fs, fsr := f.Down, f.Up;
    }
    assert Sides(fs, fsr) == Split(f, dir);

    var ackedBytes: nat := 0;
    if tcp.ACK {
      fs, fsr, ackedBytes := HandleAck(fs, fsr, tcp, t);
      fs, fsr := ReadTimestamps(fs, fsr, tcp, t);
    }
    var dscp;
    fs, dscp := RecordPayload(fs, p, tcp);
    fs := TallySegment(fs, tcp, dscp, ackedBytes);

    if dir == Up {
      g := f.(Up := fs, Down := fsr);
    } else {
      g := f.(Up := fsr, Down := fs);
    }
  }
}
