/** The store-level half of a packet step shared by `Capture` (capture.go) and
    `Parse` (parse.go): capture-wide counters and times, flow keys, flow
    creation, and writing a packet's flow back where the lookup found it.
    The one-way records are values here: where the Go code updates the flow
    through the pointers `f`, `to` and `tor`, the model computes the new flow
    and stores it under the key the lookup chose. */
module FlowStore {
  import opened Packets
  import opened FlowData
  import opened FlowTable
  import opened OneWay

  /** The store and the packet loop's local `flowIndex`. */
  datatype State = State(st: Store, flowIndex: nat)

  /** Both tables keep the flow-table invariant, their indices are distinct
      across the two tables, and there are exactly `flowIndex` flows, so the
      indices are `0 .. flowIndex - 1` in order of creation. */
  ghost predicate Valid(s: State) {
    && TableOK(s.st.TCP4, Rev4, Ends4, FlowEnds, FlowIndex, s.flowIndex)
    && TableOK(s.st.TCP6, Rev6, Ends6, FlowEnds, FlowIndex, s.flowIndex)
    && Apart(s.st.TCP4, s.st.TCP6, FlowIndex, FlowIndex)
    && |s.st.TCP4| + |s.st.TCP6| == s.flowIndex
  }

  /** The store of `NewData` with `flowIndex` 0 is valid, whatever the counters. */
  lemma EmptyStateValid(ip: IPData, meta: MetaData)
    ensures Valid(State(Store(ip, meta, map[], map[]), 0))
  {
  }

  /** capture.go:89-94: the IPv4 total length, or the IPv6 payload length
      plus the 40-byte fixed header. */
  function IPLen(ip: IPHeader): nat {
    if ip.IPv4? then ip.Length else ip.Length + 40
  }

  /** capture.go:81-95: every decoded packet is counted with its IP length;
      the capture start time is that of the first packet, the end time that
      of the latest. The flow tables are not touched. */
  function Account(st: Store, p: Packet): (r: Store)
    ensures r.IP.Packets == st.IP.Packets + 1
    ensures r.IP.Bytes == st.IP.Bytes + IPLen(p.IP)
    ensures r.Meta.CaptureStartTime == if st.IP.Packets == 0 then Some(p.Time) else st.Meta.CaptureStartTime
    ensures r.Meta.CaptureEndTime == Some(p.Time)
    ensures r.TCP4 == st.TCP4 && r.TCP6 == st.TCP6
  {
    var start := if st.IP.Packets == 0 then Some(p.Time) else st.Meta.CaptureStartTime;
    st.(IP := IPData(st.IP.Packets + 1, st.IP.Bytes + IPLen(p.IP)),
        Meta := MetaData(start, Some(p.Time)))
  }

  /** The capture-wide counters after a sequence of packets. */
  function AccountAll(st: Store, ps: seq<Packet>): Store {
    if ps == [] then st else Account(AccountAll(st, ps[..|ps| - 1]), ps[|ps| - 1])
  }

  function SumIPLen(ps: seq<Packet>): nat {
    if ps == [] then 0 else SumIPLen(ps[..|ps| - 1]) + IPLen(ps[|ps| - 1].IP)
  }

  /** Starting from an empty store, the packet count is the number of packets,
      the byte count the sum of their IP lengths, and the capture start and end
      times are the times of the first and of the last packet. */
  lemma {:induction false} AccountAllFromEmpty(st: Store, ps: seq<Packet>)
    requires st.IP == IPData(0, 0)
    ensures AccountAll(st, ps).IP == IPData(|ps|, SumIPLen(ps))
    ensures |ps| > 0 ==> AccountAll(st, ps).Meta.CaptureStartTime == Some(ps[0].Time)
    ensures |ps| > 0 ==> AccountAll(st, ps).Meta.CaptureEndTime == Some(ps[|ps| - 1].Time)
  {
    if ps != [] {
      var init := ps[..|ps| - 1];
      AccountAllFromEmpty(st, init);
      if init != [] {
        assert init[0] == ps[0];
      }
    }
  }

  /** A new flow with the given index and endpoints: ECN flags clear and two
      new one-way records (capture.go:114-122). */
  function NewFlow(index: nat, e: Ends): (f: TCPFlowData)
    ensures f.Index == index && FlowEnds(f) == e
    ensures !f.ECNInitiated && !f.ECNAccepted
    ensures f.Up == NewTCPOneWayData() && f.Down == NewTCPOneWayData()
  {
    TCPFlowData(index, e.SrcIP, e.SrcPort, e.DstIP, e.DstPort, false, false,
                NewTCPOneWayData(), NewTCPOneWayData())
  }

  /** Updating a flow keeps its index and its endpoints. */
  predicate SameIdentity(f: TCPFlowData, g: TCPFlowData) {
    f.Index == g.Index && FlowEnds(f) == FlowEnds(g)
  }

  /** The flow key of a TCP-over-IPv4 packet (capture.go:108-111). */
  function Key4(src: Addr4, dst: Addr4, tcp: TCPHeader): (k: TCP4FlowKey)
    ensures Ends4(k) == Ends(src, tcp.SrcPort, dst, tcp.DstPort)
  {
    TCP4FlowKey(src, tcp.SrcPort, dst, tcp.DstPort)
  }

  /** The flow key of a TCP-over-IPv6 packet (capture.go:130-133). */
  function Key6(src: Addr6, dst: Addr6, tcp: TCPHeader): (k: TCP6FlowKey)
    ensures Ends6(k) == Ends(src, tcp.SrcPort, dst, tcp.DstPort)
  {
    TCP6FlowKey(src, tcp.SrcPort, dst, tcp.DstPort)
  }

  /** The flow a packet with IPv4 key `k` works on: the one stored under `k`
      or under its reverse, else a new flow with index `flowIndex` and the
      packet's endpoints (capture.go:112-128). */
  function Flow4(s: State, k: TCP4FlowKey): TCPFlowData {
    Current(s.st.TCP4, k, Rev4(k), NewFlow(s.flowIndex, Ends4(k)))
  }

  function Flow6(s: State, k: TCP6FlowKey): TCPFlowData {
    Current(s.st.TCP6, k, Rev6(k), NewFlow(s.flowIndex, Ends6(k)))
  }

  /** Stores the updated flow `f` of an IPv4 packet with key `k`: under `k`
      when it is stored there or nowhere (and then `flowIndex` advances),
      under the reverse of `k` when it is stored there. */
  function Place4(s: State, k: TCP4FlowKey, f: TCPFlowData): (r: State)
    ensures r.st.IP == s.st.IP && r.st.Meta == s.st.Meta && r.st.TCP6 == s.st.TCP6
    ensures k in s.st.TCP4 ==> r == State(s.st.(TCP4 := s.st.TCP4[k := f]), s.flowIndex)
    ensures k !in s.st.TCP4 && Rev4(k) in s.st.TCP4 ==>
              r == State(s.st.(TCP4 := s.st.TCP4[Rev4(k) := f]), s.flowIndex)
    ensures k !in s.st.TCP4 && Rev4(k) !in s.st.TCP4 ==>
              r == State(s.st.(TCP4 := s.st.TCP4[k := f]), s.flowIndex + 1)
  {
    var slot := Locate(s.st.TCP4, k, Rev4(k));
    State(s.st.(TCP4 := s.st.TCP4[slot.key := f]), if slot.created then s.flowIndex + 1 else s.flowIndex)
  }

  /** Stores the updated flow of an IPv6 packet, as `Place4` (capture.go:134-150). */
  function Place6(s: State, k: TCP6FlowKey, f: TCPFlowData): (r: State)
    ensures r.st.IP == s.st.IP && r.st.Meta == s.st.Meta && r.st.TCP4 == s.st.TCP4
    ensures k in s.st.TCP6 ==> r == State(s.st.(TCP6 := s.st.TCP6[k := f]), s.flowIndex)
    ensures k !in s.st.TCP6 && Rev6(k) in s.st.TCP6 ==>
              r == State(s.st.(TCP6 := s.st.TCP6[Rev6(k) := f]), s.flowIndex)
    ensures k !in s.st.TCP6 && Rev6(k) !in s.st.TCP6 ==>
              r == State(s.st.(TCP6 := s.st.TCP6[k := f]), s.flowIndex + 1)
  {
    var slot := Locate(s.st.TCP6, k, Rev6(k));
    State(s.st.(TCP6 := s.st.TCP6[slot.key := f]), if slot.created then s.flowIndex + 1 else s.flowIndex)
  }

  /** Writing back an IPv4 flow that kept its identity keeps the store valid. */
  lemma {:induction false} Place4KeepsValid(s: State, k: TCP4FlowKey, f: TCPFlowData)
    requires Valid(s)
    requires SameIdentity(f, Flow4(s, k))
    ensures Valid(Place4(s, k, f))
  {
    var m, o, n := s.st.TCP4, s.st.TCP6, s.flowIndex;
    var slot := Locate(m, k, Rev4(k));
    var newFlow := NewFlow(n, Ends4(k));
    var r := Place4(s, k, f);
    assert r.st.TCP4 == m[slot.key := f] && r.st.TCP6 == o;
    assert r.flowIndex == if slot.created then n + 1 else n;
    ReverseInvolutions();
    PlaceKeepsTable(m, k, Rev4, Ends4, FlowEnds, FlowIndex, n, newFlow, f);
    TableOKWiden(o, Rev6, Ends6, FlowEnds, FlowIndex, n, r.flowIndex);
    PlaceKeepsApart(m, o, FlowIndex, FlowIndex, k, Rev4, n, newFlow, f);
  }

  /** Writing back an IPv6 flow that kept its identity keeps the store valid. */
  lemma {:induction false} Place6KeepsValid(s: State, k: TCP6FlowKey, f: TCPFlowData)
    requires Valid(s)
    requires SameIdentity(f, Flow6(s, k))
    ensures Valid(Place6(s, k, f))
  {
    var m, o, n := s.st.TCP6, s.st.TCP4, s.flowIndex;
    var slot := Locate(m, k, Rev6(k));
    var newFlow := NewFlow(n, Ends6(k));
    var r := Place6(s, k, f);
    assert r.st.TCP6 == m[slot.key := f] && r.st.TCP4 == o;
    assert r.flowIndex == if slot.created then n + 1 else n;
    ReverseInvolutions();
    PlaceKeepsTable(m, k, Rev6, Ends6, FlowEnds, FlowIndex, n, newFlow, f);
    TableOKWiden(o, Rev4, Ends4, FlowEnds, FlowIndex, n, r.flowIndex);
    ApartSymmetric(o, m, FlowIndex, FlowIndex);
    PlaceKeepsApart(m, o, FlowIndex, FlowIndex, k, Rev6, n, newFlow, f);
    ApartSymmetric(o, r.st.TCP6, FlowIndex, FlowIndex);
  }

  /** The store-level counters move independently of the flow tables. */
  lemma AccountKeepsValid(s: State, p: Packet)
    requires Valid(s)
    ensures Valid(State(Account(s.st, p), s.flowIndex))
  {
  }

  // ---------------------------------------------------------------------------
  // One packet, a sequence of packets
  // ---------------------------------------------------------------------------

  /** What a packet loop does to a flow once it has found it: the update by
      one TCP segment travelling in the given direction. `Capture` and
      `Parse` differ only here. */
  type SegmentUpdate = (TCPFlowData, Direction, Packet, TCPHeader) -> TCPFlowData

  /** One decoded packet (capture.go:80-286, parse.go:76-250). Every packet is
      accounted; a TCP packet then updates its flow, found under its key or
      the reverse key, or created under its key with the next index. */
  function Step(s: State, p: Packet, seg: SegmentUpdate): State {
    var s1 := State(Account(s.st, p), s.flowIndex);
    match p.TCP
    case None => s1
    case Some(tcp) =>
      match p.IP
      case IPv4(src, dst, _, _, _) =>
        var k := Key4(src, dst, tcp);
        Place4(s1, k, seg(Flow4(s1, k), Locate(s1.st.TCP4, k, Rev4(k)).dir, p, tcp))
      case IPv6(src, dst, _, _) =>
        var k := Key6(src, dst, tcp);
        Place6(s1, k, seg(Flow6(s1, k), Locate(s1.st.TCP6, k, Rev6(k)).dir, p, tcp))
  }

  /** The state after a sequence of packets. */
  function Run(s: State, ps: seq<Packet>, seg: SegmentUpdate): State {
    if ps == [] then s else Step(Run(s, ps[..|ps| - 1], seg), ps[|ps| - 1], seg)
  }

  /** A packet is accounted like any other; a packet without TCP leaves the
      flow tables and the flow counter untouched. */
  lemma StepAccounts(s: State, p: Packet, seg: SegmentUpdate)
    ensures Step(s, p, seg).st.IP == Account(s.st, p).IP
    ensures Step(s, p, seg).st.Meta == Account(s.st, p).Meta
    ensures p.TCP.None? ==> Step(s, p, seg) == State(Account(s.st, p), s.flowIndex)
    ensures p.TCP.None? ==> Step(s, p, seg).st.TCP4 == s.st.TCP4 && Step(s, p, seg).st.TCP6 == s.st.TCP6
  {
  }

  /** A TCP-over-IPv4 packet works on the flow under its own key as the up
      side, else on the flow under the reverse key as the down side, else on
      a new flow with index `flowIndex` stored under its own key only. */
  lemma Step4Resolves(s: State, p: Packet, src: Addr4, dst: Addr4, tcp: TCPHeader, seg: SegmentUpdate)
    requires p.IP.IPv4? && p.IP.Src4 == src && p.IP.Dst4 == dst && p.TCP == Some(tcp)
    ensures var k, m, r := Key4(src, dst, tcp), s.st.TCP4, Step(s, p, seg);
            && (k in m ==> r.flowIndex == s.flowIndex && r.st.TCP4 == m[k := seg(m[k], Up, p, tcp)])
            && (k !in m && Rev4(k) in m ==>
                  r.flowIndex == s.flowIndex && r.st.TCP4 == m[Rev4(k) := seg(m[Rev4(k)], Down, p, tcp)])
            && (k !in m && Rev4(k) !in m ==>
                  r.flowIndex == s.flowIndex + 1 &&
                  r.st.TCP4 == m[k := seg(NewFlow(s.flowIndex, Ends4(k)), Up, p, tcp)])
            && r.st.TCP6 == s.st.TCP6
  {
  }

  /** The same for TCP over IPv6. */
  lemma Step6Resolves(s: State, p: Packet, src: Addr6, dst: Addr6, tcp: TCPHeader, seg: SegmentUpdate)
    requires p.IP.IPv6? && p.IP.Src6 == src && p.IP.Dst6 == dst && p.TCP == Some(tcp)
    ensures var k, m, r := Key6(src, dst, tcp), s.st.TCP6, Step(s, p, seg);
            && (k in m ==> r.flowIndex == s.flowIndex && r.st.TCP6 == m[k := seg(m[k], Up, p, tcp)])
            && (k !in m && Rev6(k) in m ==>
                  r.flowIndex == s.flowIndex && r.st.TCP6 == m[Rev6(k) := seg(m[Rev6(k)], Down, p, tcp)])
            && (k !in m && Rev6(k) !in m ==>
                  r.flowIndex == s.flowIndex + 1 &&
                  r.st.TCP6 == m[k := seg(NewFlow(s.flowIndex, Ends6(k)), Up, p, tcp)])
            && r.st.TCP4 == s.st.TCP4
  {
  }

  /** The segment update never changes a flow's index or endpoints. */
  ghost predicate KeepsIdentity(seg: SegmentUpdate) {
    forall f, dir, p, tcp :: SameIdentity(seg(f, dir, p, tcp), f)
  }

  /** Each packet keeps the flow tables valid: no key stored with its
      reverse, each flow under its first packet's key, indices distinct and
      numbered in creation order. */
  lemma {:induction false} StepKeepsValid(s: State, p: Packet, seg: SegmentUpdate)
    requires Valid(s) && KeepsIdentity(seg)
    ensures Valid(Step(s, p, seg))
  {
    var s1 := State(Account(s.st, p), s.flowIndex);
    AccountKeepsValid(s, p);
    match p.TCP
    case None =>
    case Some(tcp) =>
      match p.IP
      case IPv4(src, dst, _, _, _) =>
        var k := Key4(src, dst, tcp);
        Place4KeepsValid(s1, k, seg(Flow4(s1, k), Locate(s1.st.TCP4, k, Rev4(k)).dir, p, tcp));
      case IPv6(src, dst, _, _) =>
        var k := Key6(src, dst, tcp);
        Place6KeepsValid(s1, k, seg(Flow6(s1, k), Locate(s1.st.TCP6, k, Rev6(k)).dir, p, tcp));
  }

  /** Both one-way records of a flow are consistent. */
  ghost predicate FlowConsistent(f: TCPFlowData) {
    Consistent(f.Up) && Consistent(f.Down)
  }

  /** Every one-way record in the store is consistent. */
  ghost predicate AllConsistent(st: Store) {
    && (forall k :: k in st.TCP4 ==> FlowConsistent(st.TCP4[k]))
    && (forall k :: k in st.TCP6 ==> FlowConsistent(st.TCP6[k]))
  }

  /** The segment update keeps both one-way records of a flow consistent. */
  ghost predicate KeepsConsistent(seg: SegmentUpdate) {
    forall f, dir, p, tcp :: FlowConsistent(f) ==> FlowConsistent(seg(f, dir, p, tcp))
  }

  /** Each packet keeps every one-way record consistent. */
  lemma StepKeepsConsistent(s: State, p: Packet, seg: SegmentUpdate)
    requires AllConsistent(s.st) && KeepsConsistent(seg)
    ensures AllConsistent(Step(s, p, seg).st)
  {
    NewRecordConsistent();
    var s1 := State(Account(s.st, p), s.flowIndex);
    match p.TCP
    case None =>
    case Some(tcp) =>
      match p.IP
      case IPv4(src, dst, _, _, _) =>
        var k := Key4(src, dst, tcp);
        var f := Flow4(s1, k);
        assert FlowConsistent(f);
        assert FlowConsistent(seg(f, Locate(s1.st.TCP4, k, Rev4(k)).dir, p, tcp));
      case IPv6(src, dst, _, _) =>
        var k := Key6(src, dst, tcp);
        var f := Flow6(s1, k);
        assert FlowConsistent(f);
        assert FlowConsistent(seg(f, Locate(s1.st.TCP6, k, Rev6(k)).dir, p, tcp));
  }

  /** Any sequence of packets keeps a valid store valid and its one-way
      records consistent. */
  lemma {:induction false} RunKeepsInvariants(s: State, ps: seq<Packet>, seg: SegmentUpdate)
    requires Valid(s) && AllConsistent(s.st)
    requires KeepsIdentity(seg) && KeepsConsistent(seg)
    ensures Valid(Run(s, ps, seg)) && AllConsistent(Run(s, ps, seg).st)
  {
    if ps != [] {
      var init := ps[..|ps| - 1];
      RunKeepsInvariants(s, init, seg);
      StepKeepsValid(Run(s, init, seg), ps[|ps| - 1], seg);
      StepKeepsConsistent(Run(s, init, seg), ps[|ps| - 1], seg);
    }
  }

  /** The capture-wide counters after a sequence of packets are those that
      accounting alone computes. */
  lemma {:induction false} RunAccounts(s: State, ps: seq<Packet>, seg: SegmentUpdate)
    ensures Run(s, ps, seg).st.IP == AccountAll(s.st, ps).IP
    ensures Run(s, ps, seg).st.Meta == AccountAll(s.st, ps).Meta
  {
    if ps != [] {
      var init := ps[..|ps| - 1];
      RunAccounts(s, init, seg);
      StepAccounts(Run(s, init, seg), ps[|ps| - 1], seg);
    }
  }

  /** From a new store, any sequence of packets leaves the store valid, its
      one-way records consistent, the packet count the number of packets,
      the byte count the sum of their IP lengths, and the capture start and
      end times those of the first and of the last packet. */
  lemma RunFromEmpty(meta: MetaData, ps: seq<Packet>, seg: SegmentUpdate)
    requires KeepsIdentity(seg) && KeepsConsistent(seg)
    ensures var r := Run(State(Store(IPData(0, 0), meta, map[], map[]), 0), ps, seg);
            && Valid(r) && AllConsistent(r.st)
            && r.st.IP == IPData(|ps|, SumIPLen(ps))
            && (|ps| > 0 ==> r.st.Meta.CaptureStartTime == Some(ps[0].Time))
            && (|ps| > 0 ==> r.st.Meta.CaptureEndTime == Some(ps[|ps| - 1].Time))
  {
    var s0 := State(Store(IPData(0, 0), meta, map[], map[]), 0);
    EmptyStateValid(IPData(0, 0), meta);
    RunKeepsInvariants(s0, ps, seg);
    RunAccounts(s0, ps, seg);
    AccountAllFromEmpty(s0.st, ps);
  }

  // ---------------------------------------------------------------------------
  // Shared statement-by-statement blocks
  // ---------------------------------------------------------------------------

  /** capture.go:81-95, parse.go:76-89: the capture-wide counters and times,
      updated in place. */
  method AccountPacket(d: Data, p: Packet)
    modifies d
    ensures d.Snapshot() == Account(old(d.Snapshot()), p)
  {
    if d.IP.Packets == 0 {
      d.Meta := d.Meta.(CaptureStartTime := Some(p.Time));
    }
    d.Meta := d.Meta.(CaptureEndTime := Some(p.Time));
    d.IP := IPData(d.IP.Packets + 1, d.IP.Bytes + IPLen(p.IP));
  }

  /** capture.go:107-128, parse.go:100-121: the flow of an IPv4 key: under
      the key, under its reverse (the packet then travels down), or a new
      one under the key, which takes the next index. */
  method Lookup4(d: Data, flowIndex: nat, k: TCP4FlowKey)
    returns (key: TCP4FlowKey, dir: Direction, f: TCPFlowData, next: nat)
    ensures key == Locate(d.TCP4, k, Rev4(k)).key && dir == Locate(d.TCP4, k, Rev4(k)).dir
    ensures f == Flow4(State(d.Snapshot(), flowIndex), k)
    ensures next == if Locate(d.TCP4, k, Rev4(k)).created then flowIndex + 1 else flowIndex
  {
    key, dir, next := k, Up, flowIndex;
    if k in d.TCP4 {
      f := d.TCP4[k];
    } else if k.Reverse() in d.TCP4 {
      key, dir := k.Reverse(), Down;
      f := d.TCP4[key];
    } else {
      f := NewFlow(flowIndex, Ends4(k));
      next := flowIndex + 1;
    }
  }

  /** capture.go:129-150, parse.go:122-143: the same for an IPv6 key. */
  method Lookup6(d: Data, flowIndex: nat, k: TCP6FlowKey)
    returns (key: TCP6FlowKey, dir: Direction, f: TCPFlowData, next: nat)
    ensures key == Locate(d.TCP6, k, Rev6(k)).key && dir == Locate(d.TCP6, k, Rev6(k)).dir
    ensures f == Flow6(State(d.Snapshot(), flowIndex), k)
    ensures next == if Locate(d.TCP6, k, Rev6(k)).created then flowIndex + 1 else flowIndex
  {
    key, dir, next := k, Up, flowIndex;
    if k in d.TCP6 {
      f := d.TCP6[k];
    } else if k.Reverse() in d.TCP6 {
      key, dir := k.Reverse(), Down;
      f := d.TCP6[key];
    } else {
      f := NewFlow(flowIndex, Ends6(k));
      next := flowIndex + 1;
    }
  }
}
