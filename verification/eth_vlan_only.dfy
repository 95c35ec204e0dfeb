/**
 * back2back/eth_vlan_only.py: a raw Ethernet stream, optionally inside a stack of 802.1Q tags,
 * counted on the receiving port by MAC addresses and the receiver's outer VLAN.
 */
module EthVlanOnly {
  import opened Wrappers
  import opened Text
  import Ethernet
  import Bpf
  import opened Scapy

  /** The value a port configuration holds under its 'vlan' key. */
  datatype VlanSetting = Missing | NoneValue | Single(id: int) | Stack(ids: seq<int>)

  /** A port configuration: the optional interface name, the MAC and the VLAN setting. */
  datatype PortConfig = PortConfig(iface: Option<string>, mac: string, vlan: VlanSetting)

  /** `get_vlans(config)`: the VLAN stack of a port, outermost first. */
  function GetVlans(v: VlanSetting): (r: seq<int>)
    ensures v.Missing? || v.NoneValue? ==> r == []
    ensures v.Single? ==> r == [v.id]
    ensures v.Stack? ==> r == v.ids
  {
    match v
    case Missing => []
    case NoneValue => []
    case Single(id) => [id]
    case Stack(ids) => ids
  }

  /** The layer-2 header length without CRC: Ethernet plus one tag per VLAN. */
  function L2HeaderLength(vlans: seq<int>): (n: nat)
    ensures n == Ethernet.ETHERNET_HEADER + Ethernet.VLAN_HEADER * |vlans|
  {
    14 + 4 * |vlans|
  }

  /** One tag layer per VLAN, in list order. */
  function TagLayers(vlans: seq<int>): (r: seq<Layer>)
    ensures |r| == |vlans|
    ensures forall i :: 0 <= i < |vlans| ==> r[i] == Dot1Q(vlans[i])
  {
    if vlans == [] then [] else TagLayers(vlans[..|vlans| - 1]) + [Dot1Q(vlans[|vlans| - 1])]
  }

  /**
   * The frame `run` builds: Ethernet, then one 802.1Q tag per VLAN of port 1 (the first one
   * outermost), then `'a' * (frame_size - header)`.
   */
  function FrameLayers(src: string, dst: string, vlans: seq<int>, frameSize: int): (r: seq<Layer>)
    ensures |r| == |vlans| + 2
    ensures r[0] == Ether(src, dst)
    ensures forall i :: 0 <= i < |vlans| ==> r[i + 1] == Dot1Q(vlans[i])
    ensures r[|r| - 1] == Raw(Ethernet.PayloadLength(frameSize, L2HeaderLength(vlans)))
  {
    [Ether(src, dst)] + TagLayers(vlans) + [Raw(Ethernet.PayloadLength(frameSize, L2HeaderLength(vlans)))]
  }

  lemma {:induction false} TagLayersSize(prefix: seq<Layer>, vlans: seq<int>)
    ensures WireSize(prefix + TagLayers(vlans)) == WireSize(prefix) + 4 * |vlans|
    decreases |vlans|
  {
    if vlans != [] {
      var front := vlans[..|vlans| - 1];
      var last := Dot1Q(vlans[|vlans| - 1]);
      var all := prefix + TagLayers(vlans);
      assert TagLayers(vlans) == TagLayers(front) + [last];
      assert all == (prefix + TagLayers(front)) + [last];
      assert all[..|all| - 1] == prefix + TagLayers(front);
      assert WireSize(all) == WireSize(prefix + TagLayers(front)) + 4;
      TagLayersSize(prefix, front);
    } else {
      assert prefix + TagLayers(vlans) == prefix;
    }
  }

  /**
   * The header length `run` computes is what scapy's layers occupy, so the frame is exactly
   * `frame_size` bytes; a frame size below the header gives just the headers.
   */
  lemma FrameSize(src: string, dst: string, vlans: seq<int>, frameSize: int)
    ensures frameSize >= L2HeaderLength(vlans) ==>
      WireSize(FrameLayers(src, dst, vlans, frameSize)) == frameSize
    ensures frameSize < L2HeaderLength(vlans) ==>
      WireSize(FrameLayers(src, dst, vlans, frameSize)) == L2HeaderLength(vlans)
  {
    var r := FrameLayers(src, dst, vlans, frameSize);
    var head := [Ether(src, dst)];
    assert WireSize(head) == 14 by {
      assert head[..0] == [];
    }
    TagLayersSize(head, vlans);
    assert r[..|r| - 1] == head + TagLayers(vlans);
  }

  /** `"ether host {src_mac} and ether host {dst_mac}"`. */
  function HostsFilter(srcMac: string, dstMac: string): (r: string)
    ensures r == Bpf.Conjunction([Bpf.EtherHost(srcMac), Bpf.EtherHost(dstMac)])
  {
    Bpf.Conjunction2(Bpf.EtherHost(srcMac), Bpf.EtherHost(dstMac));
    "ether host " + srcMac + " and ether host " + dstMac
  }

  /** Appending `" and vlan {vlan}"` adds the VLAN primitive to the conjunction. */
  lemma VlanClause(srcMac: string, dstMac: string, v: int)
    ensures HostsFilter(srcMac, dstMac) + " and vlan " + IntText(v)
         == Bpf.Conjunction([Bpf.EtherHost(srcMac), Bpf.EtherHost(dstMac), Bpf.Vlan(v)])
  {
    var hosts := [Bpf.EtherHost(srcMac), Bpf.EtherHost(dstMac)];
    Bpf.ConjunctionAppend(hosts, Bpf.Vlan(v));
    assert hosts + [Bpf.Vlan(v)] == [Bpf.EtherHost(srcMac), Bpf.EtherHost(dstMac), Bpf.Vlan(v)];
    var a := HostsFilter(srcMac, dstMac);
    assert " and " + "vlan " == " and vlan ";
    assert a + " and vlan " + IntText(v) == a + " and " + ("vlan " + IntText(v));
  }

  /**
   * The trigger filter: both MAC addresses, and " and vlan <port 2's first VLAN>" when PORT 1
   * has VLANs. Port 1 tagged and port 2 untagged indexes an empty list.
   */
  function TriggerFilter(srcMac: string, dstMac: string, port1Vlans: seq<int>, port2Vlans: seq<int>)
    : (r: Result<string>)
    ensures r.Err? <==> |port1Vlans| > 0 && |port2Vlans| == 0
    ensures r.Err? ==> r.error == IndexError
    ensures r.Ok? && |port1Vlans| == 0 ==>
      r.value == Bpf.Conjunction([Bpf.EtherHost(srcMac), Bpf.EtherHost(dstMac)])
    ensures r.Ok? && |port1Vlans| > 0 ==>
      r.value == Bpf.Conjunction([Bpf.EtherHost(srcMac), Bpf.EtherHost(dstMac), Bpf.Vlan(port2Vlans[0])])
  {
    if |port1Vlans| == 0 then Ok(HostsFilter(srcMac, dstMac))
    else if |port2Vlans| == 0 then Err(IndexError)
    else
      VlanClause(srcMac, dstMac, port2Vlans[0]);
      Ok(HostsFilter(srcMac, dstMac) + " and vlan " + IntText(port2Vlans[0]))
  }

  /** What `provision_port` configures on a port: its interface, MAC and VLAN tags in order. */
  datatype PortSetup = PortSetup(iface: Option<string>, mac: string, tags: seq<int>)

  function ProvisionPort(config: PortConfig): (p: PortSetup)
    ensures p.iface == config.iface && p.mac == config.mac
    ensures |p.tags| == |GetVlans(config.vlan)|
    ensures forall i :: 0 <= i < |p.tags| ==> p.tags[i] == GetVlans(config.vlan)[i]
  {
    PortSetup(config.iface, config.mac, GetVlans(config.vlan))
  }

  /**
   * The tags in the transmitted frame are the tags provisioned on port 1, in the same order,
   * and a receiver provisioned like port 1 passes the filter's VLAN clause.
   */
  lemma FrameMatchesProvisioning(c1: PortConfig, c2: PortConfig, frameSize: int)
    ensures var tags := ProvisionPort(c1).tags;
      var layers := FrameLayers(c1.mac, c2.mac, GetVlans(c1.vlan), frameSize);
      forall i :: 0 <= i < |tags| ==> layers[i + 1] == Dot1Q(tags[i])
    ensures GetVlans(c2.vlan) == GetVlans(c1.vlan) && |GetVlans(c1.vlan)| > 0 ==>
      TriggerFilter(c1.mac, c2.mac, GetVlans(c1.vlan), GetVlans(c2.vlan))
        == Ok(Bpf.Conjunction([Bpf.EtherHost(c1.mac), Bpf.EtherHost(c2.mac),
                               Bpf.Vlan(FrameLayers(c1.mac, c2.mac, GetVlans(c1.vlan), frameSize)[1].vlan)]))
  {
  }
}
