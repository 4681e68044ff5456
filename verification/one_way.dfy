/** The per-direction updates that `Capture` (capture.go) and `Parse`
    (parse.go) both make to a flow: `to` is the record of the packet's own
    direction, `tor` the record of the reverse direction. Each update is a
    function from the old record to the new one; its contract says which
    fields move and how, and that no other field changes. */
module OneWay {
  import opened Packets
  import opened Samples
  import opened FlowData
  import opened FlowTable

  // ---------------------------------------------------------------------------
  // Direction
  // ---------------------------------------------------------------------------

  /** The packet's own record and the reverse one. */
  datatype Sides = Sides(to: TCPOneWayData, tor: TCPOneWayData)

  /** capture.go:154-160: an up packet works on `Up` and answers `Down`, a
      down packet the other way round. */
  function Split(f: TCPFlowData, dir: Direction): (s: Sides)
    ensures s.to == (if dir == Up then f.Up else f.Down)
    ensures s.tor == (if dir == Up then f.Down else f.Up)
  {
    if dir == Up then Sides(f.Up, f.Down) else Sides(f.Down, f.Up)
  }

  /** Writes the two records back into the sides they were taken from. */
  function Join(f: TCPFlowData, dir: Direction, s: Sides): (g: TCPFlowData)
    ensures Split(g, dir) == s
    ensures g.(Up := f.Up, Down := f.Down) == f
  {
    if dir == Up then f.(Up := s.to, Down := s.tor) else f.(Up := s.tor, Down := s.to)
  }

  lemma JoinSplit(f: TCPFlowData, dir: Direction)
    ensures Join(f, dir, Split(f, dir)) == f
  {
  }

  // ---------------------------------------------------------------------------
  // RTT correlators
  // ---------------------------------------------------------------------------

  /** A send-time table and the RTT accumulator its matches feed. */
  datatype Correlator = Correlator(times: map<uint32, int>, rtt: DurationData)

  /** A packet at time `t` that acknowledges `key`: when the table holds a send
      time for `key`, exactly one sample `t - sent` is pushed and the entry is
      removed; otherwise nothing changes (capture.go:170-173, 208-211). */
  function Consume(c: Correlator, key: uint32, t: int): (r: Correlator)
    ensures key !in r.times
    ensures key in c.times ==> r == Correlator(c.times - {key}, c.rtt.Push(t - c.times[key]))
    ensures key !in c.times ==> r == c
  {
    if key in c.times then Correlator(c.times - {key}, c.rtt.Push(t - c.times[key])) else c
  }

  /** An entry is consumed at most once: matching the same key again, with no
      new send in between, yields no further sample. */
  lemma ConsumeOnce(c: Correlator, key: uint32, t: int, t': int)
    ensures Consume(Consume(c, key, t), key, t') == Consume(c, key, t)
  {
  }

  /** The sender side of the timestamp correlator: the TSval of an outgoing
      segment is stored with its time, replacing an earlier one
      (capture.go:169). */
  function SendTSVal(to: TCPOneWayData, tsval: uint32, t: int): (r: TCPOneWayData)
    ensures r.TSValTimes == to.TSValTimes[tsval := t]
    ensures r.(TSValTimes := to.TSValTimes) == to
  {
    to.(TSValTimes := to.TSValTimes[tsval := t])
  }

  /** The echo side: the TSecr of a segment consumes the reverse direction's
      entry for that TSval (capture.go:170-173). */
  function EchoTSEcr(tor: TCPOneWayData, tsecr: uint32, t: int): (r: TCPOneWayData)
    ensures tsecr !in r.TSValTimes
    ensures Correlator(r.TSValTimes, r.TSValRTT) == Consume(Correlator(tor.TSValTimes, tor.TSValRTT), tsecr, t)
    ensures r.(TSValTimes := tor.TSValTimes, TSValRTT := tor.TSValRTT) == tor
  {
    var c := Consume(Correlator(tor.TSValTimes, tor.TSValRTT), tsecr, t);
    tor.(TSValTimes := c.times, TSValRTT := c.rtt)
  }

  /** capture.go:164-176: a segment with a timestamps option records its
      TSval on its own side and consumes the echoed TSecr on the other side;
      one without leaves both records alone. */
  function Timestamps(s: Sides, opt: Option<TSOption>, t: int): (r: Sides)
    ensures opt.None? ==> r == s
    ensures opt.Some? ==> r == Sides(SendTSVal(s.to, opt.value.TSVal, t), EchoTSEcr(s.tor, opt.value.TSEcr, t))
  {
    match opt
    case None => s
    case Some(o) => Sides(SendTSVal(s.to, o.TSVal, t), EchoTSEcr(s.tor, o.TSEcr, t))
  }

  /** A TSecr echoed twice yields one RTT sample, not two. */
  lemma RepeatedTSEcrYieldsNothing(tor: TCPOneWayData, tsecr: uint32, t: int, t': int)
    ensures EchoTSEcr(EchoTSEcr(tor, tsecr, t), tsecr, t') == EchoTSEcr(tor, tsecr, t)
  {
    var r := EchoTSEcr(tor, tsecr, t);
    assert tsecr !in r.TSValTimes;
  }

  // ---------------------------------------------------------------------------
  // Cumulative acknowledgements
  // ---------------------------------------------------------------------------

  /** The record after an ACK and the number of newly acknowledged bytes. */
  datatype AckResult = AckResult(to: TCPOneWayData, ackedBytes: nat)

  /** Only the acknowledgement fields of `b` differ from `a`. */
  predicate OnlyAckFields(a: TCPOneWayData, b: TCPOneWayData) {
    a.(Acks := b.Acks, AckedBytes := b.AckedBytes, AckSeen := b.AckSeen,
       FirstAckTime := b.FirstAckTime, LastAckTime := b.LastAckTime, PriorAck := b.PriorAck) == b
  }

  /** capture.go:191-204: every ACK is counted; the first one only starts the
      ack clock, each later one acknowledges the forward distance from the
      previous ack number, modulo 2^32, and moves `LastAckTime` when that
      distance is positive. */
  function Ack(to: TCPOneWayData, ack: uint32, t: int): (r: AckResult)
    ensures r.ackedBytes == (if to.AckSeen then Sub32(ack, to.PriorAck) else 0)
    ensures r.ackedBytes < TWO32
    ensures r.to.Acks == to.Acks + 1
    ensures r.to.AckedBytes == to.AckedBytes + r.ackedBytes
    ensures r.to.AckSeen && r.to.PriorAck == ack
    ensures !to.AckSeen ==> r.to.FirstAckTime == Some(t) && r.to.LastAckTime == Some(t)
    ensures to.AckSeen ==> r.to.FirstAckTime == to.FirstAckTime
    ensures to.AckSeen ==> r.to.LastAckTime == if r.ackedBytes > 0 then Some(t) else to.LastAckTime
    ensures OnlyAckFields(to, r.to)
  {
    if to.AckSeen then
      var b := Sub32(ack, to.PriorAck);
      AckResult(to.(Acks := to.Acks + 1, AckedBytes := to.AckedBytes + b,
                    LastAckTime := if b > 0 then Some(t) else to.LastAckTime,
                    PriorAck := ack), b)
    else
      AckResult(to.(Acks := to.Acks + 1, AckSeen := true,
                    FirstAckTime := Some(t), LastAckTime := Some(t), PriorAck := ack), 0)
  }

  /** An ACK that repeats the previous ack number acknowledges nothing and
      leaves the ack clock where it was. */
  lemma DuplicateAckAcksNothing(to: TCPOneWayData, t: int)
    requires to.AckSeen
    ensures Ack(to, to.PriorAck, t).ackedBytes == 0
    ensures Ack(to, to.PriorAck, t).to.AckedBytes == to.AckedBytes
    ensures Ack(to, to.PriorAck, t).to.LastAckTime == to.LastAckTime
  {
  }

  /** When bytes were acknowledged, the key `Ack - ackedBytes` that the
      seq-RTT lookup uses is the previous ack number. */
  lemma SeqRTTKeyIsPriorAck(to: TCPOneWayData, ack: uint32, t: int)
    requires Ack(to, ack, t).ackedBytes > 0
    ensures Sub32(ack, Ack(to, ack, t).ackedBytes) == to.PriorAck
  {
    var d := Sub32(ack, to.PriorAck);
    assert Add32(to.PriorAck, d) == ack;
    SubAfterAdd(to.PriorAck, d);
  }

  /** A run of ACKs, each counted as by `Ack` at time `t`. */
  function AckAll(to: TCPOneWayData, acks: seq<uint32>, t: int): TCPOneWayData {
    if acks == [] then to else Ack(AckAll(to, acks[..|acks| - 1], t), acks[|acks| - 1], t).to
  }

  /** Over a run of ACKs after the first, the bytes acknowledged add up, modulo
      2^32, to the distance from the ack number before the run to the last
      one: the per-ACK deltas telescope. */
  lemma {:induction false} AckedBytesTelescope(to: TCPOneWayData, acks: seq<uint32>, t: int)
    requires to.AckSeen && |acks| > 0
    ensures (AckAll(to, acks, t).AckedBytes - to.AckedBytes) % TWO32 == Sub32(acks[|acks| - 1], to.PriorAck)
    ensures AckAll(to, acks, t).PriorAck == acks[|acks| - 1] && AckAll(to, acks, t).AckSeen
  {
    var init, a := acks[..|acks| - 1], acks[|acks| - 1];
    var w := AckAll(to, init, t);
    if init == [] {
      assert w == to;
    } else {
      AckedBytesTelescope(to, init, t);
      var p := init[|init| - 1];
      var before := w.AckedBytes - to.AckedBytes;
      assert before % TWO32 == Sub32(p, to.PriorAck);
      assert AckAll(to, acks, t).AckedBytes - to.AckedBytes == before + Sub32(a, p);
      SubOfReduced(before + Sub32(a, p), 0);
      ModSumTelescope(before, p, a, to.PriorAck);
    }
  }

  lemma ModSumTelescope(before: int, p: uint32, a: uint32, p0: uint32)
    requires before % TWO32 == Sub32(p, p0)
    ensures (before + Sub32(a, p)) % TWO32 == Sub32(a, p0)
  {
    var q := before / TWO32;
    assert before == q * TWO32 + Sub32(p, p0);
    ModShift(Sub32(p, p0) + Sub32(a, p), q);
  }

  /** When the ack numbers of the run never go backwards and do not wrap,
      the bytes acknowledged are exactly the distance covered. */
  lemma {:induction false} AckedBytesExact(to: TCPOneWayData, acks: seq<uint32>, t: int)
    requires to.AckSeen && |acks| > 0
    requires to.PriorAck <= acks[0]
    requires forall i :: 0 < i < |acks| ==> acks[i - 1] <= acks[i]
    ensures AckAll(to, acks, t).AckedBytes == to.AckedBytes + (acks[|acks| - 1] - to.PriorAck)
  {
    var init, a := acks[..|acks| - 1], acks[|acks| - 1];
    var w := AckAll(to, init, t);
    if init == [] {
      assert w == to;
    } else {
      AckedBytesExact(to, init, t);
      AckedBytesTelescope(to, init, t);
      assert w.PriorAck == init[|init| - 1] == acks[|acks| - 2];
    }
  }

  /** capture.go:206-212: when bytes were acknowledged, the reverse
      direction's send time for the previous ack number, if recorded, yields
      one seq-RTT sample and is removed. */
  function MatchSeq(tor: TCPOneWayData, ack: uint32, ackedBytes: nat, t: int): (r: TCPOneWayData)
    requires ackedBytes < TWO32
    ensures ackedBytes == 0 ==> r == tor
    ensures ackedBytes > 0 ==>
              Correlator(r.SeqTimes, r.SeqRTT) == Consume(Correlator(tor.SeqTimes, tor.SeqRTT), Sub32(ack, ackedBytes), t)
    ensures r.(SeqTimes := tor.SeqTimes, SeqRTT := tor.SeqRTT) == tor
  {
    if ackedBytes > 0 then
      var c := Consume(Correlator(tor.SeqTimes, tor.SeqRTT), Sub32(ack, ackedBytes), t);
      tor.(SeqTimes := c.times, SeqRTT := c.rtt)
    else tor
  }

  /** A duplicate ACK produces no seq-RTT sample. */
  lemma DuplicateAckNoSample(to: TCPOneWayData, tor: TCPOneWayData, t: int)
    requires to.AckSeen
    ensures MatchSeq(tor, to.PriorAck, Ack(to, to.PriorAck, t).ackedBytes, t) == tor
  {
    DuplicateAckAcksNothing(to, t);
  }

  /** An ACK that acknowledges new bytes matches the segment that started at
      the previous ack number: when the reverse direction recorded its send
      time `sent`, exactly the sample `t - sent` is pushed and the entry is
      removed. */
  lemma AckMatchesPriorAck(to: TCPOneWayData, tor: TCPOneWayData, ack: uint32, t: int)
    requires Ack(to, ack, t).ackedBytes > 0
    requires to.PriorAck in tor.SeqTimes
    ensures var r := MatchSeq(tor, ack, Ack(to, ack, t).ackedBytes, t);
            && r.SeqRTT == tor.SeqRTT.Push(t - tor.SeqTimes[to.PriorAck])
            && r.SeqTimes == tor.SeqTimes - {to.PriorAck}
  {
    SeqRTTKeyIsPriorAck(to, ack, t);
  }

  /** The two records after the ACK handling and the bytes it acknowledged. */
  datatype AckedSides = AckedSides(sides: Sides, ackedBytes: nat)

  /** capture.go:187-213, parse.go:154-176: an ACK updates the acknowledgement
      fields of the packet's own record and, when it acknowledged new bytes,
      may take a seq-RTT sample from the reverse record; a segment without
      ACK acknowledges nothing and changes neither record. */
  function Acknowledge(s: Sides, tcp: TCPHeader, t: int): (r: AckedSides)
    ensures !tcp.ACK ==> r == AckedSides(s, 0)
    ensures tcp.ACK ==> r.sides.to == Ack(s.to, tcp.Ack, t).to && r.ackedBytes == Ack(s.to, tcp.Ack, t).ackedBytes
    ensures tcp.ACK ==> r.sides.tor == MatchSeq(s.tor, tcp.Ack, r.ackedBytes, t)
    ensures r.ackedBytes < TWO32
    ensures r.sides.to.Acks == s.to.Acks + (if tcp.ACK then 1 else 0)
    ensures OnlyAckFields(s.to, r.sides.to)
    ensures PeerOnly(s.tor, r.sides.tor)
  {
    if tcp.ACK then
      var a := Ack(s.to, tcp.Ack, t);
      AckedSides(Sides(a.to, MatchSeq(s.tor, tcp.Ack, a.ackedBytes, t)), a.ackedBytes)
    else AckedSides(s, 0)
  }

  /** An ACK leaves its own record with an ack clock: `AckSeen` with both
      ack times set, given that a record that had seen an ACK had them. */
  lemma AcknowledgeStartsClock(s: Sides, tcp: TCPHeader, t: int)
    requires s.to.AckSeen ==> s.to.FirstAckTime.Some? && s.to.LastAckTime.Some?
    ensures var w := Acknowledge(s, tcp, t).sides.to;
            && (w.AckSeen <==> s.to.AckSeen || tcp.ACK)
            && (w.AckSeen ==> w.FirstAckTime.Some? && w.LastAckTime.Some?)
  {
  }

  // ---------------------------------------------------------------------------
  // Data segments and inter-packet gaps
  // ---------------------------------------------------------------------------

  /** capture.go:220-223: a data-bearing segment records its sequence number's
      send time and is counted. */
  function RecordData(to: TCPOneWayData, sn: uint32, dataBearing: bool, t: int): (r: TCPOneWayData)
    ensures dataBearing ==> r.SeqTimes == to.SeqTimes[sn := t] && r.DataSegments == to.DataSegments + 1
    ensures !dataBearing ==> r == to
    ensures r.(SeqTimes := to.SeqTimes, DataSegments := to.DataSegments) == to
  {
    if dataBearing then to.(SeqTimes := to.SeqTimes[sn := t], DataSegments := to.DataSegments + 1) else to
  }

  /** capture.go:250-253: the gap since the previous packet in this direction,
      if there was one, is pushed into `IPG`; the packet becomes the previous one. */
  function RecordIPG(to: TCPOneWayData, t: int): (r: TCPOneWayData)
    ensures r.PriorPacketTime == Some(t)
    ensures to.PriorPacketTime.None? ==> r.IPG == to.IPG
    ensures to.PriorPacketTime.Some? ==> r.IPG == to.IPG.Push(t - to.PriorPacketTime.value)
    ensures r.(IPG := to.IPG, PriorPacketTime := to.PriorPacketTime) == to
  {
    match to.PriorPacketTime
    case None => to.(PriorPacketTime := Some(t))
    case Some(pt) => to.(IPG := to.IPG.Push(t - pt), PriorPacketTime := Some(t))
  }

  // ---------------------------------------------------------------------------
  // Congestion signals
  // ---------------------------------------------------------------------------

  /** capture.go:268-282: the SCE part of the congestion update. An SCE-marked
      segment is counted, pushes the gap since the previous SCE mark and
      extends the current run; the first unmarked segment after a run pushes
      the run's length and ends it. */
  function SCEStep(to: TCPOneWayData, sce: bool, t: int): (r: TCPOneWayData)
    ensures sce ==> r.SCE == to.SCE + 1 && r.SCERunCount == to.SCERunCount + 1 && r.PriorSCETime == Some(t)
    ensures sce ==> r.SCERunLength == to.SCERunLength
    ensures sce && to.PriorSCETime.Some? ==> r.SCEIPG == to.SCEIPG.Push(t - to.PriorSCETime.value)
    ensures sce && to.PriorSCETime.None? ==> r.SCEIPG == to.SCEIPG
    ensures !sce && to.SCERunCount > 0 ==>
              r == to.(SCERunLength := to.SCERunLength.Push(to.SCERunCount as real), SCERunCount := 0)
    ensures !sce && to.SCERunCount == 0 ==> r == to
    ensures r.(SCE := to.SCE, SCEIPG := to.SCEIPG, PriorSCETime := to.PriorSCETime,
               SCERunCount := to.SCERunCount, SCERunLength := to.SCERunLength) == to
  {
    if sce then
      var ipg := match to.PriorSCETime
        case None => to.SCEIPG
        case Some(pt) => to.SCEIPG.Push(t - pt);
      to.(SCE := to.SCE + 1, SCEIPG := ipg, PriorSCETime := Some(t), SCERunCount := to.SCERunCount + 1)
    else if to.SCERunCount > 0 then
      to.(SCERunLength := to.SCERunLength.Push(to.SCERunCount as real), SCERunCount := 0)
    else to
  }

  /** The record after `SCEStep` for each of `marks` in turn, at time `t`. */
  function SCESteps(to: TCPOneWayData, marks: seq<bool>, t: int): TCPOneWayData {
    if marks == [] then to else SCEStep(SCESteps(to, marks[..|marks| - 1], t), marks[|marks| - 1], t)
  }

  function Marks(k: nat): (m: seq<bool>)
    ensures |m| == k && forall i :: 0 <= i < k ==> m[i]
  {
    if k == 0 then [] else Marks(k - 1) + [true]
  }

  /** A run of `k` SCE-marked segments leaves the run count at `k` and the
      run-length accumulator as it was. */
  lemma {:induction false} SCERunCounts(to: TCPOneWayData, k: nat, t: int)
    ensures SCESteps(to, Marks(k), t).SCERunCount == to.SCERunCount + k
    ensures SCESteps(to, Marks(k), t).SCERunLength == to.SCERunLength
    ensures SCESteps(to, Marks(k), t).SCE == to.SCE + k
  {
    if k > 0 {
      var m := Marks(k);
      assert m[..k - 1] == Marks(k - 1);
      SCERunCounts(to, k - 1, t);
    }
  }

  /** Starting outside a run, `k > 0` SCE-marked segments followed by an
      unmarked one push exactly `k` into `SCERunLength` and end the run. */
  lemma {:induction false} SCERunLength(to: TCPOneWayData, k: nat, t: int)
    requires to.SCERunCount == 0 && k > 0
    ensures SCESteps(to, Marks(k) + [false], t).SCERunLength == to.SCERunLength.Push(k as real)
    ensures SCESteps(to, Marks(k) + [false], t).SCERunCount == 0
  {
    var m := Marks(k) + [false];
    assert m[..|m| - 1] == Marks(k);
    SCERunCounts(to, k, t);
  }

  /** Every SCE mark is either in a finished run, whose lengths `runs`
      summarizes, or in the current run. */
  ghost predicate SCEBalanced(to: TCPOneWayData, runs: seq<real>) {
    SummarizesF(to.SCERunLength, runs) && Sum(runs) + to.SCERunCount as real == to.SCE as real
  }

  /** The finished runs after one `SCEStep`. */
  function RunsAfter(to: TCPOneWayData, sce: bool, runs: seq<real>): seq<real> {
    if !sce && to.SCERunCount > 0 then runs + [to.SCERunCount as real] else runs
  }

  /** `SCEStep` keeps the SCE count equal to the total length of all runs. */
  lemma SCEStepBalanced(to: TCPOneWayData, sce: bool, t: int, runs: seq<real>)
    requires SCEBalanced(to, runs)
    ensures SCEBalanced(SCEStep(to, sce, t), RunsAfter(to, sce, runs))
  {
    if !sce && to.SCERunCount > 0 {
      PushSummarizesF(to.SCERunLength, runs, to.SCERunCount as real);
      SnocSums(runs, to.SCERunCount as real);
    }
  }

  /** capture.go:257-271, parse.go:221-235: the per-segment counters of the
      TCP and IP congestion flags: CWR, ECE, NS (echoed SCE, which also credits
      the bytes this segment acknowledged) and a CE mark in the IP header. */
  function FlagCounts(to: TCPOneWayData, tcp: TCPHeader, dscp: uint8, ackedBytes: nat): (r: TCPOneWayData)
    ensures r.CWR == to.CWR + (if tcp.CWR then 1 else 0)
    ensures r.ECE == to.ECE + (if tcp.ECE then 1 else 0)
    ensures r.ESCE == to.ESCE + (if tcp.NS then 1 else 0)
    ensures r.ESCEAckedBytes == to.ESCEAckedBytes + (if tcp.NS then ackedBytes else 0)
    ensures r.CE == to.CE + (if ECNField(dscp) == CE then 1 else 0)
    ensures r.(CWR := to.CWR, ECE := to.ECE, ESCE := to.ESCE, ESCEAckedBytes := to.ESCEAckedBytes, CE := to.CE) == to
  {
    to.(CWR := to.CWR + (if tcp.CWR then 1 else 0),
        ECE := to.ECE + (if tcp.ECE then 1 else 0),
        ESCE := to.ESCE + (if tcp.NS then 1 else 0),
        ESCEAckedBytes := to.ESCEAckedBytes + (if tcp.NS then ackedBytes else 0),
        CE := to.CE + (if ECNField(dscp) == CE then 1 else 0))
  }

  /** capture.go:256-283, parse.go:220-247 (applied to segments that are not
      SYN, FIN or RST): the flag counters, then the SCE bookkeeping driven by
      the ECN field of the TOS or traffic-class byte. */
  function Congestion(to: TCPOneWayData, tcp: TCPHeader, dscp: uint8, ackedBytes: nat, t: int): (r: TCPOneWayData)
    ensures r.CWR == to.CWR + (if tcp.CWR then 1 else 0)
    ensures r.ECE == to.ECE + (if tcp.ECE then 1 else 0)
    ensures r.ESCE == to.ESCE + (if tcp.NS then 1 else 0)
    ensures r.ESCEAckedBytes == to.ESCEAckedBytes + (if tcp.NS then ackedBytes else 0)
    ensures r.CE == to.CE + (if ECNField(dscp) == CE then 1 else 0)
    ensures r.(CWR := to.CWR, ECE := to.ECE, ESCE := to.ESCE, ESCEAckedBytes := to.ESCEAckedBytes, CE := to.CE)
            == SCEStep(to, ECNField(dscp) == SCE, t)
  {
    SCEStep(FlagCounts(to, tcp, dscp, ackedBytes), ECNField(dscp) == SCE, t)
  }

  /** A segment is counted as CE or as SCE, never both. */
  lemma CEAndSCEExclusive(to: TCPOneWayData, tcp: TCPHeader, dscp: uint8, ackedBytes: nat, t: int)
    ensures var r := Congestion(to, tcp, dscp, ackedBytes, t);
            (r.CE - to.CE) + (r.SCE - to.SCE) <= 1
  {
  }

  /** Whether a segment's congestion signals are counted: not on a SYN, FIN
      or RST. */
  predicate CountsSignals(tcp: TCPHeader) {
    !tcp.SYN && !tcp.FIN && !tcp.RST
  }

  /** capture.go:249-286, parse.go:215-249: the gap since the previous packet,
      the congestion signals of a segment that carries them, and the segment
      count. */
  function Tail(to: TCPOneWayData, tcp: TCPHeader, dscp: uint8, ackedBytes: nat, t: int): (r: TCPOneWayData)
    ensures r.Segments == to.Segments + 1
    ensures r.PriorPacketTime == Some(t) && r.IPG == RecordIPG(to, t).IPG
    ensures CountsSignals(tcp) ==>
              r.(Segments := to.Segments, PriorPacketTime := to.PriorPacketTime, IPG := to.IPG)
              == Congestion(to, tcp, dscp, ackedBytes, t)
    ensures !CountsSignals(tcp) ==>
              r.(Segments := to.Segments, PriorPacketTime := to.PriorPacketTime, IPG := to.IPG) == to
  {
    CongestionIgnoresGap(to, tcp, dscp, ackedBytes, t);
    var w := RecordIPG(to, t);
    var w' := if CountsSignals(tcp) then Congestion(w, tcp, dscp, ackedBytes, t) else w;
    w'.(Segments := w'.Segments + 1)
  }

  /** The congestion update neither reads nor writes the gap fields, so it
      commutes with `RecordIPG`. */
  lemma CongestionIgnoresGap(to: TCPOneWayData, tcp: TCPHeader, dscp: uint8, ackedBytes: nat, t: int)
    ensures Congestion(RecordIPG(to, t), tcp, dscp, ackedBytes, t) == RecordIPG(Congestion(to, tcp, dscp, ackedBytes, t), t)
  {
    var g := RecordIPG(to, t);
    var f := FlagCounts(to, tcp, dscp, ackedBytes);
    assert FlagCounts(g, tcp, dscp, ackedBytes) == f.(IPG := g.IPG, PriorPacketTime := g.PriorPacketTime);
    var sce := ECNField(dscp) == SCE;
    assert SCEStep(f.(IPG := g.IPG, PriorPacketTime := g.PriorPacketTime), sce, t)
        == SCEStep(f, sce, t).(IPG := g.IPG, PriorPacketTime := g.PriorPacketTime);
  }

  // ---------------------------------------------------------------------------
  // Record invariant
  // ---------------------------------------------------------------------------

  /** Only the correlator fields, which the reverse direction's packets
      update, differ between `a` and `b`. */
  predicate PeerOnly(a: TCPOneWayData, b: TCPOneWayData) {
    a.(SeqTimes := b.SeqTimes, SeqRTT := b.SeqRTT, TSValTimes := b.TSValTimes, TSValRTT := b.TSValRTT) == b
  }

  /** Relations between the counters of one direction that every packet step
      keeps: one inter-packet gap per packet after the first, an ack clock
      exactly when an ACK was seen, and no per-segment counter above the
      number of segments. */
  predicate Consistent(w: TCPOneWayData) {
    && w.IPG.N + (if w.PriorPacketTime.Some? then 1 else 0) == w.Segments
    && (w.PriorPacketTime.Some? <==> w.Segments > 0)
    && (w.AckSeen <==> w.Acks > 0)
    && (w.AckSeen ==> w.FirstAckTime.Some? && w.LastAckTime.Some?)
    && w.Acks <= w.Segments && w.DataSegments <= w.Segments
    && w.CWR <= w.Segments && w.ECE <= w.Segments && w.ESCE <= w.Segments
    && w.CE + w.SCE <= w.Segments
    && w.SCERunCount <= w.SCE
    && w.LateSegments <= w.Segments && w.RetransmittedSegments <= w.Segments
  }

  lemma NewRecordConsistent()
    ensures Consistent(NewTCPOneWayData())
  {
  }

  lemma PeerOnlyTransitive(a: TCPOneWayData, b: TCPOneWayData, c: TCPOneWayData)
    requires PeerOnly(a, b) && PeerOnly(b, c)
    ensures PeerOnly(a, c)
  {
  }

  /** The reverse direction's updates keep its record consistent. */
  lemma PeerOnlyKeepsConsistent(a: TCPOneWayData, b: TCPOneWayData)
    requires Consistent(a) && PeerOnly(a, b)
    ensures Consistent(b)
  {
  }

  /** `Consistent` for a record whose segment is being processed and not yet
      counted: its ACK, data and ordering counters may already count it. */
  predicate Pending(w: TCPOneWayData) {
    && w.IPG.N + (if w.PriorPacketTime.Some? then 1 else 0) == w.Segments
    && (w.PriorPacketTime.Some? <==> w.Segments > 0)
    && (w.AckSeen <==> w.Acks > 0)
    && (w.AckSeen ==> w.FirstAckTime.Some? && w.LastAckTime.Some?)
    && w.Acks <= w.Segments + 1 && w.DataSegments <= w.Segments + 1
    && w.CWR <= w.Segments && w.ECE <= w.Segments && w.ESCE <= w.Segments
    && w.CE + w.SCE <= w.Segments
    && w.SCERunCount <= w.SCE
    && w.LateSegments <= w.Segments + 1 && w.RetransmittedSegments <= w.Segments + 1
  }

  /** The tail of a segment's update completes it: a pending record becomes
      consistent. */
  lemma TailKeepsConsistent(to: TCPOneWayData, tcp: TCPHeader, dscp: uint8, ackedBytes: nat, t: int)
    requires Pending(to)
    ensures Consistent(Tail(to, tcp, dscp, ackedBytes, t))
  {
    var w := RecordIPG(to, t);
    assert w.IPG.N == to.IPG.N + (if to.PriorPacketTime.Some? then 1 else 0);
    if CountsSignals(tcp) {
      CEAndSCEExclusive(w, tcp, dscp, ackedBytes, t);
    }
  }

  // ---------------------------------------------------------------------------
  // Shared statement-by-statement blocks
  // ---------------------------------------------------------------------------

  /** capture.go:162-176, parse.go:178-190: the timestamps option, read on
      local copies of the two records; `tsval` stays 0 without the option. */
  method ReadTimestamps(to: TCPOneWayData, tor: TCPOneWayData, tcp: TCPHeader, t: int)
    returns (to': TCPOneWayData, tor': TCPOneWayData, tsval: uint32)
    ensures Sides(to', tor') == Timestamps(Sides(to, tor), tcp.Timestamps, t)
    ensures tsval == tcp.TSValOrZero()
  {
    to', tor', tsval := to, tor, 0;
    if tcp.Timestamps.Some? {
      tsval := tcp.Timestamps.value.TSVal;
      var tsecr := tcp.Timestamps.value.TSEcr;
      to' := to'.(TSValTimes := to'.TSValTimes[tsval := t]);
      if tsecr in tor'.TSValTimes {
        tor' := tor'.(TSValRTT := tor'.TSValRTT.Push(t - tor'.TSValTimes[tsecr]));
        tor' := tor'.(TSValTimes := tor'.TSValTimes - {tsecr});
      }
    }
  }

  /** capture.go:187-213, parse.go:154-176: the ACK handling. */
  method HandleAcks(to: TCPOneWayData, tor: TCPOneWayData, tcp: TCPHeader, t: int)
    returns (to': TCPOneWayData, tor': TCPOneWayData, ackedBytes: nat)
    ensures AckedSides(Sides(to', tor'), ackedBytes) == Acknowledge(Sides(to, tor), tcp, t)
  {
    to', tor', ackedBytes := to, tor, 0;
    if tcp.ACK {
      to' := to'.(Acks := to'.Acks + 1);
      if to'.AckSeen {
        ackedBytes := Sub32(tcp.Ack, to'.PriorAck);
        to' := to'.(AckedBytes := to'.AckedBytes + ackedBytes);
        if ackedBytes > 0 {
          to' := to'.(LastAckTime := Some(t));
        }
      } else {
        to' := to'.(AckSeen := true);
        to' := to'.(FirstAckTime := Some(t));
        to' := to'.(LastAckTime := Some(t));
      }
      to' := to'.(PriorAck := tcp.Ack);

      if ackedBytes > 0 {
        var pack := Sub32(tcp.Ack, ackedBytes);
        if pack in tor'.SeqTimes {
          tor' := tor'.(SeqRTT := tor'.SeqRTT.Push(t - tor'.SeqTimes[pack]));
          tor' := tor'.(SeqTimes := tor'.SeqTimes - {pack});
        }
      }
    }
  }

  /** capture.go:220-223, 228-231, parse.go:201-204, 208-211: a data-bearing
      segment's send time and count. */
  method RecordDataSegment(to: TCPOneWayData, sn: uint32, dataBearing: bool, t: int)
    returns (to': TCPOneWayData)
    ensures to' == RecordData(to, sn, dataBearing, t)
  {
    to' := to;
    if dataBearing {
      to' := to'.(SeqTimes := to'.SeqTimes[sn := t]);
      to' := to'.(DataSegments := to'.DataSegments + 1);
    }
  }

  /** capture.go:249-253, parse.go:215-218 */
  method RecordGap(to: TCPOneWayData, t: int) returns (to': TCPOneWayData)
    ensures to' == RecordIPG(to, t)
  {
    to' := to;
    if to'.PriorPacketTime.Some? {
      to' := to'.(IPG := to'.IPG.Push(t - to'.PriorPacketTime.value));
    }
    to' := to'.(PriorPacketTime := Some(t));
  }

  /** capture.go:268-282, parse.go:234-246 */
  method MarkSCE(to: TCPOneWayData, sce: bool, t: int) returns (to': TCPOneWayData)
    ensures to' == SCEStep(to, sce, t)
  {
    to' := to;
    if sce {
      to' := to'.(SCE := to'.SCE + 1);
      if to'.PriorSCETime.Some? {
        to' := to'.(SCEIPG := to'.SCEIPG.Push(t - to'.PriorSCETime.value));
      }
      to' := to'.(PriorSCETime := Some(t));
      to' := to'.(SCERunCount := to'.SCERunCount + 1);
    } else if to'.SCERunCount > 0 {
      to' := to'.(SCERunLength := to'.SCERunLength.Push(to'.SCERunCount as real));
      to' := to'.(SCERunCount := 0);
    }
  }

  /** capture.go:257-271, parse.go:221-235 */
  method CountFlags(to: TCPOneWayData, tcp: TCPHeader, dscp: uint8, ackedBytes: nat)
    returns (to': TCPOneWayData)
    ensures to' == FlagCounts(to, tcp, dscp, ackedBytes)
  {
    var cwr, ece, esce, esceBytes, ce := to.CWR, to.ECE, to.ESCE, to.ESCEAckedBytes, to.CE;
    if tcp.CWR {
      cwr := cwr + 1;
    }
    if tcp.ECE {
      ece := ece + 1;
    }
    if tcp.NS {
      esce := esce + 1;
      esceBytes := esceBytes + ackedBytes;
    }
    if ECNField(dscp) == CE {
      ce := ce + 1;
    }
    to' := to.(CWR := cwr, ECE := ece, ESCE := esce, ESCEAckedBytes := esceBytes, CE := ce);
  }

  /** capture.go:256-283, parse.go:220-247 */
  method CountSignals(to: TCPOneWayData, tcp: TCPHeader, dscp: uint8, ackedBytes: nat, t: int)
    returns (to': TCPOneWayData)
    ensures to' == Congestion(to, tcp, dscp, ackedBytes, t)
  {
    to' := CountFlags(to, tcp, dscp, ackedBytes);
    to' := MarkSCE(to', ECNField(dscp) == SCE, t);
  }

  /** capture.go:249-286, parse.go:215-249: gap, congestion signals and
      segment count. */
  method RecordTail(to: TCPOneWayData, tcp: TCPHeader, dscp: uint8, ackedBytes: nat, t: int)
    returns (to': TCPOneWayData)
    ensures to' == Tail(to, tcp, dscp, ackedBytes, t)
  {
    to' := RecordGap(to, t);
    if !tcp.SYN && !tcp.FIN && !tcp.RST {
      to' := CountSignals(to', tcp, dscp, ackedBytes, t);
    }
    to' := to'.(Segments := to'.Segments + 1);
  }
}
