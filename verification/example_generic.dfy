/**
 * back2back/example_generic.py: helpers shared by the generic back-to-back example: port
 * creation, the IPv4/UDP frame and its hex text, and the counting trigger.
 */
module ExampleGeneric {
  import opened Wrappers
  import opened Text
  import Hex
  import Ethernet
  import Bpf
  import opened Scapy

  /** The layer-3 protocol of a port and how it gets its address. */
  datatype IpVersion = V4 | V6
  datatype Addressing =
    | Dhcp
    | StaticV4(ip: Option<string>, netmask: Option<string>, gateway: Option<string>)
    | ManualV6(ip: Option<string>)

  /** What `create_port` configures on the server. */
  datatype PortSetup = PortSetup(iface: string, mac: string, version: IpVersion, addressing: Addressing)

  /**
   * `create_port`: IPv4 only when `ip_mode` is exactly "ipv4" (any other mode is IPv6); DHCP
   * when asked, otherwise a static IPv4 address with netmask and gateway, or only the manual
   * IPv6 address.
   */
  function CreatePort(iface: string, mac: string, ipMode: string, useDhcp: bool,
                      ip: Option<string>, netmask: Option<string>, gateway: Option<string>)
    : (p: PortSetup)
    ensures p.iface == iface && p.mac == mac
    ensures p.version == V4 <==> ipMode == "ipv4"
    ensures p.addressing.Dhcp? <==> useDhcp
    ensures !useDhcp && ipMode == "ipv4" ==> p.addressing == StaticV4(ip, netmask, gateway)
    ensures !useDhcp && ipMode != "ipv4" ==> p.addressing == ManualV6(ip)
  {
    var version := if ipMode == "ipv4" then V4 else V6;
    var addressing :=
      if useDhcp then Dhcp
      else if ipMode == "ipv4" then StaticV4(ip, netmask, gateway)
      else ManualV6(ip);
    PortSetup(iface, mac, version, addressing)
  }

  /** A port as the flow helpers read it back: its handle, MAC and IPv4 address. */
  datatype PortInfo = PortInfo(handle: nat, mac: string, ip: string)

  /** The scapy frame `create_frame_ipv4_udp` builds: Ethernet / IP / UDP / `'a' * (length - 42)`. */
  function FrameLayers(dstMac: string, srcMac: string, dstIp: string, srcIp: string,
                       dstUdpPort: int, srcUdpPort: int, length: int): seq<Layer>
  {
    [Ether(srcMac, dstMac), IPv4(srcIp, dstIp), Udp(srcUdpPort, dstUdpPort),
     Raw(Ethernet.PayloadLength(length, Ethernet.UDP_OVERHEAD))]
  }

  /** The frame is `length` bytes long (without CRC), or just the 42 header bytes below that. */
  lemma FrameLength(dstMac: string, srcMac: string, dstIp: string, srcIp: string,
                    dstUdpPort: int, srcUdpPort: int, length: int)
    ensures WireSize(FrameLayers(dstMac, srcMac, dstIp, srcIp, dstUdpPort, srcUdpPort, length))
         == if length >= Ethernet.UDP_OVERHEAD then length else Ethernet.UDP_OVERHEAD
  {
    var payload := Raw(Ethernet.PayloadLength(length, Ethernet.UDP_OVERHEAD));
    var udp := Udp(srcUdpPort, dstUdpPort);
    var ip := IPv4(srcIp, dstIp);
    WireSizeCons(payload, []);
    assert [payload] + [] == [payload];
    WireSizeCons(udp, [payload]);
    assert [udp] + [payload] == [udp, payload];
    WireSizeCons(ip, [udp, payload]);
    assert [ip] + [udp, payload] == [ip, udp, payload];
    WireSizeCons(Ether(srcMac, dstMac), [ip, udp, payload]);
    assert [Ether(srcMac, dstMac)] + [ip, udp, payload]
        == FrameLayers(dstMac, srcMac, dstIp, srcIp, dstUdpPort, srcUdpPort, length);
  }

  /**
   * The text `create_frame_ipv4_udp` returns for the 42 header bytes scapy serialises: two
   * lower-case hex digits per byte of the frame.
   */
  function FrameHex(headers: seq<Hex.Byte>, length: int): (r: string)
    ensures |r| == 2 * (|headers| + Ethernet.PayloadLength(length, Ethernet.UDP_OVERHEAD))
    ensures Hex.AllHex(r)
  {
    Ethernet.FrameText(headers, length, Ethernet.UDP_OVERHEAD)
  }

  /**
   * With the 42 header bytes, a frame of at least 42 bytes becomes a text of exactly
   * `2 * length` hex digits that decodes back to the header followed by the 'a' payload.
   */
  lemma FrameHexShape(headers: seq<Hex.Byte>, length: int)
    requires |headers| == Ethernet.UDP_OVERHEAD && length >= Ethernet.UDP_OVERHEAD
    ensures |FrameHex(headers, length)| == 2 * length
    ensures Hex.Decode(FrameHex(headers, length))
         == headers + Ethernet.PayloadBytes(length - Ethernet.UDP_OVERHEAD)
  {
    Hex.EncodeRoundTrip(headers + Ethernet.PayloadBytes(length - Ethernet.UDP_OVERHEAD));
  }

  /** The trigger filter of `create_trigger`. */
  function TriggerFilter(srcIp: string, dstIp: string, srcUdpPort: int, dstUdpPort: int): (r: string)
    ensures r == Bpf.Conjunction([Bpf.IpSrc(srcIp), Bpf.IpDst(dstIp), Bpf.Udp,
                                  Bpf.SrcPort(srcUdpPort), Bpf.DstPort(dstUdpPort)])
  {
    Bpf.Conjunction5(Bpf.IpSrc(srcIp), Bpf.IpDst(dstIp), Bpf.Udp,
                     Bpf.SrcPort(srcUdpPort), Bpf.DstPort(dstUdpPort));
    FilterSpelled("ip src " + srcIp, "ip dst " + dstIp, IntText(srcUdpPort), IntText(dstUdpPort));
    "ip src " + srcIp + " and ip dst " + dstIp + " and udp and src port " + IntText(srcUdpPort)
      + " and dst port " + IntText(dstUdpPort)
  }

  /** The five rendered clauses joined by " and " read as the script's single format string. */
  lemma FilterSpelled(a: string, b: string, c: string, d: string)
    ensures a + " and " + b + " and " + "udp" + " and " + ("src port " + c) + " and " + ("dst port " + d)
         == a + " and " + b + " and udp and src port " + c + " and dst port " + d
  {
    var head := a + " and " + b;
    assert " and " + "udp" + " and " + "src port " == " and udp and src port ";
    assert head + " and " + "udp" + " and " + ("src port " + c) == head + " and udp and src port " + c;
    assert " and " + ("dst port " + d) == " and dst port " + d;
  }

  /** A stream with its frame, and the trigger counting it, each on the port that owns it. */
  datatype Stream = Stream(port: nat, frame: seq<Layer>, frames: int, gapNs: int)
  datatype Trigger = Trigger(port: nat, filter: string)

  /**
   * `create_flow_ipv4_udp`: the stream goes on the source port, the trigger on the destination
   * port, and the frame's addresses and UDP ports are the ones the trigger filters on.
   */
  function CreateFlow(src: PortInfo, dst: PortInfo, dstMac: string, length: int,
                      srcUdpPort: int, dstUdpPort: int, frames: int, gapNs: int)
    : (r: (Stream, Trigger))
    ensures |r.0.frame| == 4
    ensures r.0.port == src.handle && r.1.port == dst.handle
    ensures r.0.frames == frames && r.0.gapNs == gapNs
    ensures r.0.frame[0] == Ether(src.mac, dstMac)
  {
    var frame := FrameLayers(dstMac, src.mac, dst.ip, src.ip, dstUdpPort, srcUdpPort, length);
    (Stream(src.handle, frame, frames, gapNs),
     Trigger(dst.handle, TriggerFilter(src.ip, dst.ip, srcUdpPort, dstUdpPort)))
  }

  /** The trigger's filter names exactly the IPv4 addresses and UDP ports the stream's frame carries. */
  lemma TriggerMatchesFrame(src: PortInfo, dst: PortInfo, dstMac: string, length: int,
                            srcUdpPort: int, dstUdpPort: int, frames: int, gapNs: int)
    ensures var (stream, trigger) := CreateFlow(src, dst, dstMac, length, srcUdpPort, dstUdpPort, frames, gapNs);
      var ip := stream.frame[1];
      var udp := stream.frame[2];
      ip.IPv4? && udp.Udp? &&
      trigger.filter == Bpf.Conjunction([Bpf.IpSrc(ip.srcIp), Bpf.IpDst(ip.dstIp), Bpf.Udp,
                                         Bpf.SrcPort(udp.sport), Bpf.DstPort(udp.dport)])
  {
  }
}
