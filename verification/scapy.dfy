/**
 * The scapy layers the back-to-back examples stack into a frame, and the number of bytes each
 * layer puts on the wire (without the CRC, which the ByteBlower port appends).
 */
module Scapy {
  import Ethernet

  datatype Layer =
    | Ether(src: string, dst: string)
    | Dot1Q(vlan: int)
    | IPv4(srcIp: string, dstIp: string)
    | Udp(sport: int, dport: int)
    | Raw(length: nat)

  function LayerSize(l: Layer): nat
  {
    match l
    case Ether(_, _) => Ethernet.ETHERNET_HEADER
    case Dot1Q(_) => Ethernet.VLAN_HEADER
    case IPv4(_, _) => Ethernet.IPV4_HEADER
    case Udp(_, _) => Ethernet.UDP_HEADER
    case Raw(n) => n
  }

  /** The bytes of a stack of layers: the sum of the layer sizes. */
  function WireSize(layers: seq<Layer>): nat
  {
    if layers == [] then 0 else WireSize(layers[..|layers| - 1]) + LayerSize(layers[|layers| - 1])
  }

  /** Stacking two parts gives the sum of their sizes. */
  lemma {:induction false} WireSizeAppend(a: seq<Layer>, b: seq<Layer>)
    ensures WireSize(a + b) == WireSize(a) + WireSize(b)
    decreases |b|
  {
    if b == [] {
      assert a + b == a;
    } else {
      var front := b[..|b| - 1];
      assert (a + b)[..|a + b| - 1] == a + front;
      WireSizeAppend(a, front);
    }
  }

  /** A layer in front of a stack adds its own size. */
  lemma WireSizeCons(l: Layer, rest: seq<Layer>)
    ensures WireSize([l] + rest) == LayerSize(l) + WireSize(rest)
  {
    assert WireSize([l]) == LayerSize(l) by { assert [l][..0] == []; }
    WireSizeAppend([l], rest);
  }
}
