/**
 * back2back/ipv4_vlan.py: the basic IPv4 stream, with an optional 802.1Q tag on the
 * transmitted frame and an optional VLAN clause in the receiving trigger.
 */
module Ipv4Vlan {
  import opened Wrappers
  import opened Text
  import Ethernet
  import Bpf
  import Ipv4FrameBlasting
  import opened Scapy
  import UdpTrafficWithResolving

  /** The frame size and UDP ports `run` uses. */
  const FRAME_SIZE := 512
  const UDP_PORT := 4096

  /** The untagged frame: Ethernet, IPv4, UDP and `'a' * (frame_size - 42)`. */
  function UntaggedLayers(srcMac: string, dstMac: string, srcIp: string, dstIp: string): seq<Layer>
  {
    [Ether(srcMac, dstMac), IPv4(srcIp, dstIp), Udp(UDP_PORT, UDP_PORT),
     Raw(Ethernet.PayloadLength(FRAME_SIZE, Ethernet.UDP_OVERHEAD))]
  }

  /**
   * The frame the stream sends: a Dot1Q layer with the TX port's VLAN sits between Ethernet
   * and IPv4 exactly when the TX configuration has a 'vlan' key; everything else is the
   * untagged frame.
   */
  function TxLayers(srcMac: string, dstMac: string, srcIp: string, dstIp: string, txVlan: Option<int>)
    : (r: seq<Layer>)
    ensures |r| == (if txVlan.Some? then 5 else 4)
    ensures r[0] == Ether(srcMac, dstMac)
    ensures txVlan.None? ==> r == UntaggedLayers(srcMac, dstMac, srcIp, dstIp)
    ensures txVlan.Some? ==>
      r == UntaggedLayers(srcMac, dstMac, srcIp, dstIp)[..1] + [Dot1Q(txVlan.value)]
           + UntaggedLayers(srcMac, dstMac, srcIp, dstIp)[1..]
    ensures r[|r| - 1] == Raw(470)
  {
    var payload := Raw(Ethernet.PayloadLength(FRAME_SIZE, 42));
    if txVlan.Some? then
      [Ether(srcMac, dstMac), Dot1Q(txVlan.value), IPv4(srcIp, dstIp), Udp(UDP_PORT, UDP_PORT), payload]
    else
      [Ether(srcMac, dstMac), IPv4(srcIp, dstIp), Udp(UDP_PORT, UDP_PORT), payload]
  }

  /**
   * The payload does not shrink for the tag: the untagged frame is exactly 512 bytes, the
   * tagged one 4 bytes longer.
   */
  lemma TxFrameSize(srcMac: string, dstMac: string, srcIp: string, dstIp: string, txVlan: Option<int>)
    ensures WireSize(TxLayers(srcMac, dstMac, srcIp, dstIp, txVlan))
         == FRAME_SIZE + (if txVlan.Some? then Ethernet.VLAN_HEADER else 0)
  {
    var r := TxLayers(srcMac, dstMac, srcIp, dstIp, txVlan);
    var tail := [IPv4(srcIp, dstIp), Udp(UDP_PORT, UDP_PORT), Raw(470)];
    WireSizeCons(Raw(470), []);
    WireSizeCons(Udp(UDP_PORT, UDP_PORT), [Raw(470)]);
    assert [Udp(UDP_PORT, UDP_PORT)] + [Raw(470)] == tail[1..];
    WireSizeCons(IPv4(srcIp, dstIp), tail[1..]);
    assert [IPv4(srcIp, dstIp)] + tail[1..] == tail;
    if txVlan.Some? {
      WireSizeCons(Dot1Q(txVlan.value), tail);
      WireSizeCons(Ether(srcMac, dstMac), [Dot1Q(txVlan.value)] + tail);
      assert r == [Ether(srcMac, dstMac)] + ([Dot1Q(txVlan.value)] + tail);
    } else {
      WireSizeCons(Ether(srcMac, dstMac), tail);
      assert r == [Ether(srcMac, dstMac)] + tail;
    }
  }

  /** The clauses of the receiving trigger: the RX port's VLAN, if configured, comes first. */
  function RxPrimitives(dstIp: string, rxVlan: Option<int>): seq<Bpf.Primitive>
  {
    (if rxVlan.Some? then [Bpf.Vlan(rxVlan.value)] else []) + [Bpf.IpDst(dstIp), Bpf.UdpPort(UDP_PORT)]
  }

  /**
   * The trigger filter: `"ip dst <dst> and udp port 4096"`, prefixed with `"vlan <id> and "`
   * exactly when the RX configuration has a 'vlan' key.
   */
  function RxFilter(dstIp: string, rxVlan: Option<int>): (r: string)
    ensures r == Bpf.Conjunction(RxPrimitives(dstIp, rxVlan))
  {
    if rxVlan.Some? then
      var rest := [Bpf.IpDst(dstIp), Bpf.UdpPort(UDP_PORT)];
      assert RxPrimitives(dstIp, rxVlan) == [Bpf.Vlan(rxVlan.value)] + rest;
      Bpf.ConjunctionPrepend(Bpf.Vlan(rxVlan.value), rest);
      "vlan " + IntText(rxVlan.value) + " and " + Ipv4FrameBlasting.TriggerFilter(dstIp)
    else
      assert RxPrimitives(dstIp, rxVlan) == [Bpf.IpDst(dstIp), Bpf.UdpPort(UDP_PORT)];
      Ipv4FrameBlasting.TriggerFilter(dstIp)
  }

  /** Both branches share the body: the VLAN branch only adds the prefix. */
  lemma RxFilterPrefix(dstIp: string, v: int)
    ensures RxFilter(dstIp, Some(v)) == "vlan " + IntText(v) + " and " + RxFilter(dstIp, None)
  {
  }

  /**
   * The VLAN layers `provision_port` adds to a port: one with the configured id whenever the
   * key is present, whatever its value.
   */
  function ProvisionVlans(vlan: Option<int>): (r: seq<int>)
    ensures |r| <= 1
    ensures vlan.Some? <==> r != []
    ensures forall i :: 0 <= i < |r| ==> r[i] == vlan.value
  {
    if vlan.Some? then [vlan.value] else []
  }

  /**
   * Presence, not truthiness: VLAN 0 is provisioned here, while the device configuration of
   * the resolving UDP example drops it.
   */
  lemma ZeroVlanIsProvisioned()
    ensures ProvisionVlans(Some(0)) == [0]
    ensures UdpTrafficWithResolving.DeviceVlans(Some(0), []) == []
  {
  }

  /**
   * With the same configuration on both sides, the tag on the frame is the VLAN the port was
   * provisioned with, and the trigger looks for that same VLAN.
   */
  lemma TagMatchesProvisioning(srcMac: string, dstMac: string, srcIp: string, dstIp: string,
                               vlan: Option<int>)
    ensures var r := TxLayers(srcMac, dstMac, srcIp, dstIp, vlan);
      ProvisionVlans(vlan) == (if r[1].Dot1Q? then [r[1].vlan] else [])
    ensures ProvisionVlans(vlan) != [] ==>
      RxPrimitives(dstIp, vlan)[0] == Bpf.Vlan(ProvisionVlans(vlan)[0])
  {
  }
}
