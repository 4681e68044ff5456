/** Decoded packet records, fixed-width integers and the 32-bit sequence-space
    arithmetic shared by the three generations of the flow-statistics engine.

    The engines never see raw bytes: the packet decoder hands them the IPv4 or
    IPv6 header, the TCP header when there is one, and the capture timestamp. */
module Packets {

  datatype Option<+T> = None | Some(value: T)

  const TWO32: int := 0x1_0000_0000

  type uint4 = x: int | 0 <= x < 0x10
  type uint8 = x: int | 0 <= x < 0x100
  type uint16 = x: int | 0 <= x < 0x1_0000
  type uint32 = x: int | 0 <= x < 0x1_0000_0000

  type Addr4 = s: seq<uint8> | |s| == 4 witness [0, 0, 0, 0]
  type Addr6 = s: seq<uint8> | |s| == 16
    witness [0, 0, 0, 0, 0, 0, 0, 0, 0, 0, 0, 0, 0, 0, 0, 0]

  /** The IP layer as the decoder leaves it. For IPv6, `Length` is the payload
      length of the fixed header (extension headers are not separated out). */
  datatype IPHeader =
    | IPv4(Src4: Addr4, Dst4: Addr4, Length: uint16, IHL: uint4, TOS: uint8)
    | IPv6(Src6: Addr6, Dst6: Addr6, Length: uint16, TrafficClass: uint8)
  {
    /** The TOS byte (IPv4) or the traffic class (IPv6). */
    function DSCP(): uint8 {
      if IPv4? then TOS else TrafficClass
    }
  }

  /** The TCP Timestamps option (kind 8, length 10, section 3 of RFC 7323). */
  datatype TSOption = TSOption(TSVal: uint32, TSEcr: uint32)

  /** The decoded TCP header. `Timestamps` is the first timestamps option of
      length 10, if the segment carries one. */
  datatype TCPHeader = TCPHeader(
    SrcPort: uint16, DstPort: uint16,
    Seq: uint32, Ack: uint32, DataOffset: uint4,
    SYN: bool, ACK: bool, FIN: bool, RST: bool, CWR: bool, ECE: bool, NS: bool,
    Timestamps: Option<TSOption>)
  {
    /** The TSval of the segment, 0 when it carries no timestamps option. */
    function TSValOrZero(): uint32 {
      match Timestamps
      case Some(o) => o.TSVal
      case None => 0
    }
  }

  /** One decoded packet: capture time in nanoseconds, IP layer, TCP layer if any. */
  datatype Packet = Packet(Time: int, IP: IPHeader, TCP: Option<TCPHeader>)

  /** Go's conversion of an `int` to `uint32`: two's-complement truncation. */
  function ToUint32(x: int): (r: uint32)
    ensures (x - r) % TWO32 == 0
    ensures 0 <= x < TWO32 ==> r == x
  {
    x % TWO32
  }

  /** Unsigned 32-bit addition with wrap-around. */
  function Add32(a: uint32, b: uint32): (r: uint32)
    ensures r == a + b || r == a + b - TWO32
  {
    (a + b) % TWO32
  }

  /** Unsigned 32-bit subtraction with wrap-around: the distance from `b` forward to `a`. */
  function Sub32(a: uint32, b: uint32): (r: uint32)
    ensures Add32(b, r) == a
    ensures b <= a ==> r == a - b
    ensures a < b ==> r == a - b + TWO32
  {
    (a - b) % TWO32
  }

  /** Going forward by `d` and measuring the distance back gives `d`. */
  lemma SubAfterAdd(a: uint32, d: uint32)
    ensures Sub32(Add32(a, d), a) == d
  {
  }

  /** `math.MaxUint32/2`, the half-space bound used by the modular comparisons. */
  const HalfSpace: uint32 := 0x7FFF_FFFF

  /** `s` lies at or after `exp` in sequence space (section 3.4 of RFC 9293):
      the forward distance from `exp` to `s` is below half the space. */
  predicate AtOrAfter(s: uint32, exp: uint32) {
    Sub32(s, exp) < HalfSpace
  }

  /** `v` lies before `hi`: the forward distance from `hi` to `v` exceeds half the space. */
  predicate Before(v: uint32, hi: uint32) {
    Sub32(v, hi) > HalfSpace
  }

  /** Reducing the operands modulo 2^32 does not change a wrapped difference. */
  lemma {:induction false} SubOfReduced(x: int, y: int)
    ensures Sub32(x % TWO32, y % TWO32) == (x - y) % TWO32
  {
    var q1, q2 := x / TWO32, y / TWO32;
    assert x == q1 * TWO32 + x % TWO32;
    assert y == q2 * TWO32 + y % TWO32;
    var d := x % TWO32 - y % TWO32;
    assert x - y == d + (q1 - q2) * TWO32;
    ModShift(d, q1 - q2);
  }

  lemma ModShift(d: int, q: int)
    ensures (d + q * TWO32) % TWO32 == d % TWO32
  {
  }

  /** The modular comparison agrees with the order of the unwrapped sequence
      numbers whenever they are less than half the space apart. */
  lemma {:induction false} AtOrAfterUnwrapped(x: int, y: int)
    requires -(HalfSpace as int) < x - y < HalfSpace
    ensures AtOrAfter(x % TWO32, y % TWO32) <==> x >= y
    ensures Before(y % TWO32, x % TWO32) <==> x > y
  {
    SubOfReduced(x, y);
    SubOfReduced(y, x);
    if x >= y {
      assert (x - y) % TWO32 == x - y;
      if x > y {
        assert (y - x) % TWO32 == y - x + TWO32;
      } else {
        assert (y - x) % TWO32 == 0;
      }
    } else {
      assert (x - y) % TWO32 == x - y + TWO32;
      assert (y - x) % TWO32 == y - x;
    }
  }

  /** Advancing a number by less than half the space, across the wrap or
      not, puts it after the old one and never before: the old one lies
      before the new one, and not at or after it. */
  lemma {:induction false} AdvanceIsAfter(a: uint32, d: uint32)
    requires 0 < d < HalfSpace
    ensures AtOrAfter(Add32(a, d), a) && !Before(Add32(a, d), a)
    ensures Before(a, Add32(a, d)) && !AtOrAfter(a, Add32(a, d))
  {
    SubAfterAdd(a, d);
    var b := Add32(a, d);
    assert Sub32(a, b) == TWO32 - d by {
      if a + d < TWO32 {
        assert b == a + d;
      } else {
        assert b == a + d - TWO32;
      }
    }
  }

  /** ECN codepoints of the two low TOS bits (section 5 of RFC 3168), with the
      ECT(1) codepoint repurposed as the SCE mark. */
  const NotECT: uint8 := 0x00
  const SCE: uint8 := 0x01
  const ECT: uint8 := 0x02
  const CE: uint8 := 0x03

  /** `ECN(dscp & 0x03)`: the ECN field of a TOS / traffic-class byte. */
  function ECNField(tos: uint8): (e: uint8)
    ensures e < 4
    ensures (tos - e) % 4 == 0
  {
    tos % 4
  }
}
