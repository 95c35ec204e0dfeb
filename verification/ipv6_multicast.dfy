/**
 * back2back/ipv6_multicast_mldv2.py: the IPv6 multicast group becomes the destination MAC
 * 33-33 followed by the last four octets of the address (section 7 of RFC 2464).
 */
module Ipv6Multicast {
  import opened Text
  import Hex
  import MacText
  import Bpf
  import Ethernet

  type Group = g: int | 0 <= g < 0x1_0000

  /** A parsed IPv6 address: its eight 16-bit groups, most significant first. */
  type Address = a: seq<Group> | |a| == 8 witness [0, 0, 0, 0, 0, 0, 0, 0]

  function GroupTexts(a: seq<Group>): (r: seq<string>)
    ensures |r| == |a|
    ensures forall i :: 0 <= i < |a| ==> r[i] == Hex.Format(a[i], 4)
  {
    if |a| == 0 then [] else [Hex.Format(a[0], 4)] + GroupTexts(a[1..])
  }

  /** `ipaddress.IPv6Address(ip_str).exploded`: eight four-digit groups joined by colons. */
  function Exploded(a: Address): string
  {
    Join(GroupTexts(a), ":")
  }

  /** The sixteen octets of the address, high byte of each group first. */
  function AddressBytes(a: Address): (b: seq<Hex.Byte>)
    ensures |b| == 16
  {
    seq(16, i requires 0 <= i < 16 => if i % 2 == 0 then a[i / 2] / 256 else a[i / 2] % 256)
  }

  /** The multicast MAC of a group: 33-33 and octets 12 to 15 of the address. */
  function MulticastMac(a: Address): string
  {
    MacText.Mac([0x33, 0x33] + AddressBytes(a)[12..])
  }

  lemma ExplodedParts(a: Address)
    ensures Split(Exploded(a), ':') == GroupTexts(a)
  {
    var texts := GroupTexts(a);
    forall i | 0 <= i < 8 ensures ':' !in texts[i] {
      Hex.FormatExact(a[i], 4);
    }
    SplitJoin(texts, ':');
  }

  /** The two numbers read from one exploded group are its high and low byte. */
  lemma GroupDigits(g: Group)
    ensures |Hex.Format(g, 4)| == 4
    ensures Hex.AllHex(Hex.Format(g, 4)[0..2]) && Hex.HexText(Hex.Format(g, 4)[0..2]) == g / 256
    ensures Hex.AllHex(Hex.Format(g, 4)[2..4]) && Hex.HexText(Hex.Format(g, 4)[2..4]) == g % 256
  {
    Hex.Format4Split(g);
    Hex.FormatExact(g / 256, 2);
    Hex.FormatExact(g % 256, 2);
    assert Hex.Format(g, 4)[0..2] == Hex.Format(g, 4)[..2];
    assert Hex.Format(g, 4)[2..4] == Hex.Format(g, 4)[2..];
  }

  lemma AddressBytesPrefix(a: Address, k: nat)
    requires k < 8
    ensures AddressBytes(a)[..2 * (k + 1)] == AddressBytes(a)[..2 * k] + [a[k] / 256, a[k] % 256]
  {
  }

  lemma MacOfDigits(a: Address, digits: seq<nat>)
    requires digits == AddressBytes(a)
    ensures "33:33:" + Hex.Format(digits[12], 2) + ":" + Hex.Format(digits[13], 2) + ":"
      + Hex.Format(digits[14], 2) + ":" + Hex.Format(digits[15], 2) == MulticastMac(a)
  {
    var o: seq<Hex.Byte> := [0x33, 0x33] + AddressBytes(a)[12..];
    assert o[0] == 0x33 && o[1] == 0x33;
    assert o[2] == digits[12] && o[3] == digits[13] && o[4] == digits[14] && o[5] == digits[15];
    MacText.MacSpelled(o);
    PrefixText();
  }

  /** The fixed first two groups, 33 and 33, each followed by a colon. */
  lemma PrefixText()
    ensures Hex.Format(0x33, 2) + ":" + Hex.Format(0x33, 2) + ":" == "33:33:"
  {
    Hex.Format2(0x33);
  }

  /**
   * `convert_multicast_ip_to_mac`: splits the exploded text at the colons, turns every group
   * into two numbers (its first and last two hex digits), and formats numbers 12 to 15 after
   * "33:33:".
   */
  method ConvertMulticastIpToMac(a: Address) returns (mac: string)
    ensures mac == MulticastMac(a)
  {
    ExplodedParts(a);
    var parts := Split(Exploded(a), ':');
    var digits: seq<nat> := [];
    for k := 0 to |parts|
      invariant digits == AddressBytes(a)[..2 * k]
    {
      var part := parts[k];
      GroupDigits(a[k]);
      AddressBytesPrefix(a, k);
      digits := digits + [Hex.HexText(part[0..2]), Hex.HexText(part[2..4])];
    }
    MacOfDigits(a, digits);
    mac := "33:33:" + Hex.Format(digits[12], 2) + ":" + Hex.Format(digits[13], 2) + ":"
      + Hex.Format(digits[14], 2) + ":" + Hex.Format(digits[15], 2);
  }

  /**
   * The MAC is a well-formed address beginning 33:33: whose last four octets are the last four
   * octets of the group address.
   */
  lemma MulticastMacShape(a: Address)
    ensures MacText.WellFormed(MulticastMac(a)) && |MulticastMac(a)| == 17
    ensures MacText.Octets(MulticastMac(a))
         == [0x33, 0x33, a[6] / 256, a[6] % 256, a[7] / 256, a[7] % 256]
    ensures StartsWith(MulticastMac(a), "33:33:")
  {
    var o: seq<Hex.Byte> := [0x33, 0x33] + AddressBytes(a)[12..];
    MacText.MacRoundTrip(o);
    MacOfDigits(a, AddressBytes(a));
  }

  /** Two group addresses get the same MAC exactly when their last 32 bits agree. */
  lemma SameMacIffSameLow32(a: Address, b: Address)
    ensures MulticastMac(a) == MulticastMac(b) <==> a[6] == b[6] && a[7] == b[7]
  {
    MulticastMacShape(a);
    MulticastMacShape(b);
    if a[6] == b[6] && a[7] == b[7] {
      assert AddressBytes(a)[12..] == AddressBytes(b)[12..];
    }
    if MulticastMac(a) == MulticastMac(b) {
      assert a[6] / 256 == b[6] / 256 && a[6] % 256 == b[6] % 256;
      assert a[7] / 256 == b[7] / 256 && a[7] % 256 == b[7] % 256;
      assert a[6] == (a[6] / 256) * 256 + a[6] % 256 && b[6] == (b[6] / 256) * 256 + b[6] % 256;
      assert a[7] == (a[7] / 256) * 256 + a[7] % 256 && b[7] == (b[7] / 256) * 256 + b[7] % 256;
    }
  }

  /** The address in the comment above the function, ff05::2:1, maps to 33:33:00:02:00:01. */
  lemma DocumentedExample(a: Address)
    requires a == [0xff05, 0, 0, 0, 0, 0, 2, 1]
    ensures MulticastMac(a) == "33:33:00:02:00:01"
  {
    var digits := AddressBytes(a);
    MacOfDigits(a, digits);
    assert digits[12] == 0 && digits[13] == 2 && digits[14] == 0 && digits[15] == 1;
    Hex.Format2(0);
    Hex.Format2(1);
    Hex.Format2(2);
  }

  /**
   * `generate_frame_string`, as written: the payload is the frame size minus 14 + 20 + 8, the
   * IPv4 header length, although the header scapy builds is IPv6.
   */
  function GenerateFrameString(headers: seq<Hex.Byte>, frameSize: int): (r: string)
    ensures |r| == 2 * (|headers| + Ethernet.PayloadLength(frameSize, 42))
    ensures Hex.AllHex(r)
    ensures Hex.Decode(r) == headers + Ethernet.PayloadBytes(Ethernet.PayloadLength(frameSize, 42))
  {
    var bytes := headers + Ethernet.PayloadBytes(Ethernet.PayloadLength(frameSize,
      Ethernet.ETHERNET_HEADER + Ethernet.IPV4_HEADER + Ethernet.UDP_HEADER));
    Hex.EncodeRoundTrip(bytes);
    Hex.Encode(bytes)
  }

  const IPV6_HEADER := 40

  /**
   * With the 14 + 40 + 8 header bytes scapy builds for Ethernet/IPv6/UDP, the frame sent is 20
   * bytes longer than the configured size.
   */
  lemma FrameTooLong(headers: seq<Hex.Byte>, frameSize: int)
    requires |headers| == Ethernet.ETHERNET_HEADER + IPV6_HEADER + Ethernet.UDP_HEADER
    requires frameSize >= 42
    ensures |Hex.Decode(GenerateFrameString(headers, frameSize))| == frameSize + 20
  {
  }

  /** The frame text with the IPv6 header length subtracted, as the configuration intends. */
  function GenerateFrameStringCorrected(headers: seq<Hex.Byte>, frameSize: int): (r: string)
    requires |headers| == Ethernet.ETHERNET_HEADER + IPV6_HEADER + Ethernet.UDP_HEADER
    requires frameSize >= |headers|
    ensures |r| % 2 == 0 && Hex.AllHex(r)
    ensures |Hex.Decode(r)| == frameSize
    ensures Hex.Decode(r)[..|headers|] == headers
  {
    var bytes := headers + Ethernet.PayloadBytes(Ethernet.PayloadLength(frameSize, |headers|));
    Hex.EncodeRoundTrip(bytes);
    Hex.Encode(bytes)
  }

  /** The receiving trigger's filter: `"ip6 dst {} and udp dst port {}"`. */
  function TriggerFilter(dstIp: string, udpDstPort: int): (r: string)
    ensures r == Bpf.Conjunction([Bpf.Ip6Dst(dstIp), Bpf.UdpDstPort(udpDstPort)])
  {
    Bpf.Conjunction2(Bpf.Ip6Dst(dstIp), Bpf.UdpDstPort(udpDstPort));
    "ip6 dst " + dstIp + " and udp dst port " + IntText(udpDstPort)
  }
}
