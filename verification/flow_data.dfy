/** The statistics store of the capture engine (data.go): flow keys, the
    per-direction record, the flow record, the store itself and the two
    single-pass accumulators. */
module FlowData {
  import opened Packets
  import opened Samples
  import FlowTable

  // ---------------------------------------------------------------------------
  // Accumulators
  // ---------------------------------------------------------------------------

  /** Running count, minimum, maximum, mean and sum of squared deviations of a
      stream of durations (nanoseconds). `mean` and `s` follow Welford's update. */
  datatype DurationData = DurationData(N: nat, Min: int, Max: int, mean: real, s: real)
  {
    /** data.go:131-148 */
    function Push(d: int): (r: DurationData)
      ensures r.N == N + 1
      ensures r.Min <= d <= r.Max
      ensures N == 0 ==> r.Min == d && r.Max == d
      ensures N > 0 ==> r.Min <= Min && Max <= r.Max
      ensures r.Min == d || r.Min == Min
      ensures r.Max == d || r.Max == Max
    {
      var mn := if N == 0 || d < Min then d else Min;
      var mx := if N == 0 || d > Max then d else Max;
      var m' := NextMean(mean, N + 1, d as real);
      DurationData(N + 1, mn, mx, m', NextS(s, mean, m', d as real))
    }

    /** data.go:150-152 */
    predicate IsZero() {
      N == 0
    }

    /** data.go:158-163 */
    function Variance(): (v: real)
      ensures N <= 1 ==> v == 0.0
    {
      if N > 1 then s / ((N - 1) as real) else 0.0
    }
  }

  /** The accumulator holds exactly what a full pass over `xs` would compute. */
  ghost predicate Summarizes(a: DurationData, xs: seq<int>) {
    && a.N == |xs|
    && (a.N > 0 ==> a.Min == MinOf(xs) && a.Max == MaxOf(xs))
    && WelfordInv(a.mean, a.s, Reals(xs))
  }

  /** Go's zero value, the state of every accumulator in a new record. */
  const EmptyDuration := DurationData(0, 0, 0, 0.0, 0.0)

  /** Pushing a sample into a summary of `xs` gives a summary of `xs + [d]`. */
  lemma {:induction false} PushSummarizes(a: DurationData, xs: seq<int>, d: int)
    requires Summarizes(a, xs)
    ensures Summarizes(a.Push(d), xs + [d])
  {
    var ys := xs + [d];
    SnocPrefix(xs, d);
    if xs != [] {
      assert MinOf(ys) == if d < MinOf(xs) then d else MinOf(xs);
      assert MaxOf(ys) == if d > MaxOf(xs) then d else MaxOf(xs);
    }
    RealsSnoc(xs, d);
    WelfordSnoc(a.mean, a.s, Reals(xs), d as real);
  }

  /** The accumulator after pushing `xs`, one sample at a time, into a new one. */
  function PushAll(xs: seq<int>): DurationData {
    if xs == [] then EmptyDuration else PushAll(xs[..|xs| - 1]).Push(xs[|xs| - 1])
  }

  /** After any sequence of pushes, N, Min and Max are the count and the true
      extremes of the samples, and mean and s are their exact running sums. */
  lemma {:induction false} PushAllSummarizes(xs: seq<int>)
    ensures Summarizes(PushAll(xs), xs)
  {
    if xs != [] {
      var init, x := xs[..|xs| - 1], xs[|xs| - 1];
      assert xs == init + [x];
      var a := PushAll(init);
      assert PushAll(xs) == a.Push(x);
      PushAllSummarizes(init);
      PushSummarizes(a, init, x);
    }
  }

  /** `IsZero` distinguishes "no samples" from "samples of value zero". */
  lemma IsZeroIffNoSamples(a: DurationData, xs: seq<int>)
    requires Summarizes(a, xs)
    ensures a.IsZero() <==> xs == []
  {
  }

  /** For two or more samples the incremental variance equals the two-pass
      formula: squared deviations from the mean over n - 1. */
  lemma VarianceIsTwoPass(a: DurationData, xs: seq<int>)
    requires Summarizes(a, xs) && a.N > 1
    ensures a.mean == Sum(Reals(xs)) / (a.N as real)
    ensures a.Variance() == SumSqDev(Reals(xs), a.mean) / ((a.N - 1) as real)
  {
    WelfordIsTwoPass(a.mean, a.s, Reals(xs));
  }

  /** The same accumulator over real samples (used for SCE run lengths). */
  datatype Float64Data = Float64Data(N: nat, Min: real, Max: real, mean: real, s: real)
  {
    /** data.go:222-239 */
    function Push(f: real): (r: Float64Data)
      ensures r.N == N + 1
      ensures r.Min <= f <= r.Max
      ensures N == 0 ==> r.Min == f && r.Max == f
      ensures N > 0 ==> r.Min <= Min && Max <= r.Max
      ensures r.Min == f || r.Min == Min
      ensures r.Max == f || r.Max == Max
    {
      var mn := if N == 0 || f < Min then f else Min;
      var mx := if N == 0 || f > Max then f else Max;
      var m' := NextMean(mean, N + 1, f);
      Float64Data(N + 1, mn, mx, m', NextS(s, mean, m', f))
    }

    /** data.go:241-243 */
    predicate IsZero() {
      N == 0
    }

    /** data.go:249-254 */
    function Variance(): (v: real)
      ensures N <= 1 ==> v == 0.0
    {
      if N > 1 then s / ((N - 1) as real) else 0.0
    }
  }

  /** The accumulator holds exactly what a full pass over `xs` would compute. */
  ghost predicate SummarizesF(a: Float64Data, xs: seq<real>) {
    && a.N == |xs|
    && (a.N > 0 ==> a.Min == MinOfR(xs) && a.Max == MaxOfR(xs))
    && WelfordInv(a.mean, a.s, xs)
  }

  const EmptyFloat64 := Float64Data(0, 0.0, 0.0, 0.0, 0.0)

  lemma {:induction false} PushSummarizesF(a: Float64Data, xs: seq<real>, f: real)
    requires SummarizesF(a, xs)
    ensures SummarizesF(a.Push(f), xs + [f])
  {
    var ys := xs + [f];
    SnocPrefix(xs, f);
    if xs != [] {
      assert MinOfR(ys) == if f < MinOfR(xs) then f else MinOfR(xs);
      assert MaxOfR(ys) == if f > MaxOfR(xs) then f else MaxOfR(xs);
    }
    WelfordSnoc(a.mean, a.s, xs, f);
  }

  function PushAllF(xs: seq<real>): Float64Data {
    if xs == [] then EmptyFloat64 else PushAllF(xs[..|xs| - 1]).Push(xs[|xs| - 1])
  }

  lemma {:induction false} PushAllSummarizesF(xs: seq<real>)
    ensures SummarizesF(PushAllF(xs), xs)
  {
    if xs != [] {
      var init, x := xs[..|xs| - 1], xs[|xs| - 1];
      assert xs == init + [x];
      var a := PushAllF(init);
      assert PushAllF(xs) == a.Push(x);
      PushAllSummarizesF(init);
      PushSummarizesF(a, init, x);
    }
  }

  lemma IsZeroIffNoSamplesF(a: Float64Data, xs: seq<real>)
    requires SummarizesF(a, xs)
    ensures a.IsZero() <==> xs == []
  {
  }

  lemma VarianceIsTwoPassF(a: Float64Data, xs: seq<real>)
    requires SummarizesF(a, xs) && a.N > 1
    ensures a.mean == Sum(xs) / (a.N as real)
    ensures a.Variance() == SumSqDev(xs, a.mean) / ((a.N - 1) as real)
  {
    WelfordIsTwoPass(a.mean, a.s, xs);
  }

  // ---------------------------------------------------------------------------
  // Flow keys
  // ---------------------------------------------------------------------------

  datatype TCP4FlowKey = TCP4FlowKey(SrcIP: Addr4, SrcPort: uint16, DstIP: Addr4, DstPort: uint16)
  {
    /** data.go:106-108 */
    function Reverse(): (r: TCP4FlowKey)
      ensures r.SrcIP == DstIP && r.SrcPort == DstPort
      ensures r.DstIP == SrcIP && r.DstPort == SrcPort
    {
      TCP4FlowKey(DstIP, DstPort, SrcIP, SrcPort)
    }
  }

  datatype TCP6FlowKey = TCP6FlowKey(SrcIP: Addr6, SrcPort: uint16, DstIP: Addr6, DstPort: uint16)
  {
    /** data.go:117-119 */
    function Reverse(): (r: TCP6FlowKey)
      ensures r.SrcIP == DstIP && r.SrcPort == DstPort
      ensures r.DstIP == SrcIP && r.DstPort == SrcPort
    {
      TCP6FlowKey(DstIP, DstPort, SrcIP, SrcPort)
    }
  }

  function Rev4(k: TCP4FlowKey): TCP4FlowKey { k.Reverse() }
  function Rev6(k: TCP6FlowKey): TCP6FlowKey { k.Reverse() }

  lemma ReverseInvolutions()
    ensures FlowTable.Involution(Rev4)
    ensures FlowTable.Involution(Rev6)
  {
  }

  /** A key is its own reverse exactly when both endpoints coincide. */
  lemma ReverseFixedPoints(k4: TCP4FlowKey, k6: TCP6FlowKey)
    ensures k4.Reverse() == k4 <==> (k4.SrcIP == k4.DstIP && k4.SrcPort == k4.DstPort)
    ensures k6.Reverse() == k6 <==> (k6.SrcIP == k6.DstIP && k6.SrcPort == k6.DstPort)
  {
  }

  /** The endpoints of a flow: addresses (4 or 16 bytes) and ports. */
  datatype Ends = Ends(SrcIP: seq<uint8>, SrcPort: uint16, DstIP: seq<uint8>, DstPort: uint16)

  function Ends4(k: TCP4FlowKey): Ends { Ends(k.SrcIP, k.SrcPort, k.DstIP, k.DstPort) }
  function Ends6(k: TCP6FlowKey): Ends { Ends(k.SrcIP, k.SrcPort, k.DstIP, k.DstPort) }

  // ---------------------------------------------------------------------------
  // Records
  // ---------------------------------------------------------------------------

  /** Per-direction state. Go's zero `time.Time` is `None`. Of the declared
      fields, those that no packet loop ever writes (`Initialized`, `FinSeen`,
      `SackedBytes`, `DuplicateAcks`, `Gaps`, `GapBytes`, `SackedBytesCtr`,
      `HiTSVal`) are left out: they stay zero. `AckSeen` and `PriorTSVal`
      (read by capture.go) and `PriorSeq` (read by parse.go) complete it. */
  datatype TCPOneWayData = TCPOneWayData(
    CE: nat, SCE: nat, ESCE: nat, ECE: nat, CWR: nat,
    Segments: nat, DataSegments: nat, Acks: nat,
    AckedBytes: nat, ESCEAckedBytes: nat,
    LateSegments: nat, RetransmittedSegments: nat,
    FirstAckTime: Option<int>, LastAckTime: Option<int>,
    PriorPacketTime: Option<int>, PriorSCETime: Option<int>,
    SCERunCount: nat, SCERunLength: Float64Data,
    IPG: DurationData, SCEIPG: DurationData,
    SeqTimes: map<uint32, int>, SeqRTT: DurationData,
    TSValTimes: map<uint32, int>, TSValRTT: DurationData,
    PriorAck: uint32, ExpSeq: uint32,
    AckSeen: bool, PriorTSVal: uint32, PriorSeq: uint32)

  /** data.go:80-85: empty pending tables, zero counters, empty accumulators. */
  function NewTCPOneWayData(): (w: TCPOneWayData)
    ensures w.SeqTimes == map[] && w.TSValTimes == map[]
    ensures w.CE == w.SCE == w.ESCE == w.ECE == w.CWR == 0
    ensures w.Segments == w.DataSegments == w.Acks == 0
    ensures w.AckedBytes == w.ESCEAckedBytes == 0
    ensures w.LateSegments == w.RetransmittedSegments == w.SCERunCount == 0
    ensures w.FirstAckTime.None? && w.LastAckTime.None?
    ensures w.PriorPacketTime.None? && w.PriorSCETime.None?
    ensures Summarizes(w.IPG, []) && Summarizes(w.SCEIPG, [])
    ensures Summarizes(w.SeqRTT, []) && Summarizes(w.TSValRTT, [])
    ensures SummarizesF(w.SCERunLength, [])
    ensures !w.AckSeen
    ensures w.PriorAck == w.ExpSeq == 0
    ensures w.PriorTSVal == w.PriorSeq == 0
  {
    TCPOneWayData(
      0, 0, 0, 0, 0,
      0, 0, 0,
      0, 0,
      0, 0,
      None, None,
      None, None,
      0, EmptyFloat64,
      EmptyDuration, EmptyDuration,
      map[], EmptyDuration,
      map[], EmptyDuration,
      0, 0,
      false, 0, 0)
  }

  /** One bidirectional flow: creation index, endpoints as first seen, ECN
      negotiation flags and the two directions. */
  datatype TCPFlowData = TCPFlowData(
    Index: int,
    SrcIP: seq<uint8>, SrcPort: uint16, DstIP: seq<uint8>, DstPort: uint16,
    ECNInitiated: bool, ECNAccepted: bool,
    Up: TCPOneWayData, Down: TCPOneWayData)

  function FlowEnds(f: TCPFlowData): Ends { Ends(f.SrcIP, f.SrcPort, f.DstIP, f.DstPort) }
  function FlowIndex(f: TCPFlowData): int { f.Index }

  datatype IPData = IPData(Packets: nat, Bytes: nat)

  /** Capture start and end: the times of the first and of the latest packet. */
  datatype MetaData = MetaData(CaptureStartTime: Option<int>, CaptureEndTime: Option<int>)

  /** A snapshot of the store's contents. */
  datatype Store = Store(
    IP: IPData, Meta: MetaData,
    TCP4: map<TCP4FlowKey, TCPFlowData>, TCP6: map<TCP6FlowKey, TCPFlowData>)

  /** The statistics store that a packet loop updates in place. */
  class Data {
    var IP: IPData
    var Meta: MetaData
    var TCP4: map<TCP4FlowKey, TCPFlowData>
    var TCP6: map<TCP6FlowKey, TCPFlowData>

    /** data.go:23-28 */
    constructor ()
      ensures IP == IPData(0, 0) && Meta == MetaData(None, None)
      ensures TCP4 == map[] && TCP6 == map[]
    {
      IP := IPData(0, 0);
      Meta := MetaData(None, None);
      TCP4 := map[];
      TCP6 := map[];
    }

    function Snapshot(): Store
      reads this
    {
      Store(IP, Meta, TCP4, TCP6)
    }
  }
}
