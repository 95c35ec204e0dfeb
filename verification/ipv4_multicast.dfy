/**
 * back2back/ipv4_multicast.py: the IPv4 multicast group address becomes the destination MAC
 * address of the stream (section 6.4 of RFC 1112: 01-00-5E followed by the low-order 23 bits of
 * the group address); the frame is sent as hex text and counted by a trigger filter.
 */
module Ipv4Multicast {
  import opened Wrappers
  import opened Text
  import Hex
  import MacText
  import Bpf
  import Ethernet

  /** `[int(i) for i in parts]`: ValueError as soon as one part is not a number. */
  function ParseAll(parts: seq<string>): (r: Result<seq<nat>>)
    ensures r.Ok? <==> forall i :: 0 <= i < |parts| ==> ParseInt(parts[i]).Ok?
    ensures r.Ok? ==> |r.value| == |parts|
    ensures r.Ok? ==> forall i :: 0 <= i < |parts| ==> r.value[i] == ParseInt(parts[i]).value
    ensures r.Err? ==> r.error == ValueError
  {
    if |parts| == 0 then Ok([])
    else match ParseInt(parts[0])
      case Err(e) => Err(e)
      case Ok(v) =>
        match ParseAll(parts[1..])
        case Err(e) => Err(e)
        case Ok(vs) => Ok([v] + vs)
  }

  /** The numbers of a dotted address: `[int(i) for i in ip.split('.')]`. */
  function DottedNumbers(ip: string): Result<seq<nat>>
  {
    ParseAll(Split(ip, '.'))
  }

  /**
   * `convert_multicast_ip_to_mac(ip)`. `0x7f & digits[1]` is written `% 128`, which is the same
   * for the non-negative numbers int() yields here. A part that is not a number raises
   * ValueError; fewer than four parts raise IndexError at `digits[1..3]`.
   */
  function ConvertMulticastIpToMac(ip: string): (r: Result<string>)
    ensures DottedNumbers(ip).Err? ==> r == Err(ValueError)
    ensures DottedNumbers(ip).Ok? ==> (r.Ok? <==> |DottedNumbers(ip).value| >= 4)
    ensures r.Err? ==> r.error in {ValueError, IndexError}
    ensures r.Ok? ==> StartsWith(r.value, "01:00:5e:")
  {
    match DottedNumbers(ip)
    case Err(e) => Err(e)
    case Ok(d) =>
      if |d| < 4 then Err(IndexError)
      else Ok("01:00:5e:" + Hex.Format(d[1] % 128, 2) + ":" + Hex.Format(d[2], 2) + ":" + Hex.Format(d[3], 2))
  }

  /** The value of a dotted-quad address as a 32-bit number. */
  function AddressValue(d: seq<nat>): nat
    requires |d| >= 4
  {
    d[0] * 0x100_0000 + d[1] * 0x1_0000 + d[2] * 0x100 + d[3]
  }

  /** The value of a MAC address as a 48-bit number. */
  function MacValue(m: seq<nat>): nat
    requires |m| == 6
  {
    m[0] * 0x100_0000_0000 + m[1] * 0x1_0000_0000 + m[2] * 0x100_0000 + m[3] * 0x1_0000 + m[4] * 0x100 + m[5]
  }

  /** The text the function formats from the last three numbers of the address. */
  function MacFromNumbers(b1: nat, b2: nat, b3: nat): string
  {
    "01:00:5e:" + Hex.Format(b1 % 128, 2) + ":" + Hex.Format(b2, 2) + ":" + Hex.Format(b3, 2)
  }

  lemma MacFromOctets(b1: Hex.Byte, b2: Hex.Byte, b3: Hex.Byte)
    ensures var mac := MacFromNumbers(b1, b2, b3);
      && |mac| == 17
      && MacText.WellFormed(mac)
      && MacText.Octets(mac) == [0x01, 0x00, 0x5e, b1 % 128, b2, b3]
  {
    var octets: seq<Hex.Byte> := [0x01, 0x00, 0x5e, b1 % 128, b2, b3];
    assert MacFromNumbers(b1, b2, b3) == MacText.Mac(octets) by {
      MacText.MacSpelled(octets);
      PrefixText();
    }
    MacText.MacRoundTrip(octets);
  }

  /** The fixed first three groups, 01, 00 and 5e, each followed by a colon. */
  lemma PrefixText()
    ensures Hex.Format(0x01, 2) + ":" + Hex.Format(0x00, 2) + ":" + Hex.Format(0x5e, 2) + ":" == "01:00:5e:"
  {
    Hex.Format2(0x01);
    Hex.Format2(0x00);
    Hex.Format2(0x5e);
  }

  /**
   * For a dotted quad of octets the result is a well-formed MAC text whose octets are
   * 01, 00, 5e, then the second octet without its top bit, then the third and fourth octets;
   * as a 48-bit number it is 01-00-5E-00-00-00 plus the low 23 bits of the group address, so
   * the first octet and the top bit of the second are ignored.
   */
  lemma MulticastMac(ip: string)
    requires DottedNumbers(ip).Ok? && |DottedNumbers(ip).value| >= 4
    requires forall i :: 0 <= i < 4 ==> DottedNumbers(ip).value[i] < 256
    ensures ConvertMulticastIpToMac(ip).Ok?
    ensures var mac := ConvertMulticastIpToMac(ip).value; var d := DottedNumbers(ip).value;
      && |mac| == 17
      && MacText.WellFormed(mac)
      && MacText.Octets(mac) == [0x01, 0x00, 0x5e, d[1] % 128, d[2], d[3]]
      && MacText.Octets(mac)[3] < 0x80
      && MacValue(MacText.Octets(mac)) == 0x01_00_5e_00_00_00 + AddressValue(d) % 0x80_0000
  {
    var d := DottedNumbers(ip).value;
    assert ConvertMulticastIpToMac(ip) == Ok(MacFromNumbers(d[1], d[2], d[3]));
    MacFromOctets(d[1], d[2], d[3]);
    LowBits(d[0], d[1], d[2], d[3]);
  }

  lemma LowBits(a: nat, b: nat, c: nat, e: nat)
    requires a < 256 && b < 256 && c < 256 && e < 256
    ensures (a * 0x100_0000 + b * 0x1_0000 + c * 0x100 + e) % 0x80_0000
         == (b % 128) * 0x1_0000 + c * 0x100 + e
  {
    var low := (b % 128) * 0x1_0000 + c * 0x100 + e;
    var high := a * 2 + b / 128;
    assert b * 0x1_0000 == (b / 128) * 0x80_0000 + (b % 128) * 0x1_0000;
    assert a * 0x100_0000 == (a * 2) * 0x80_0000;
    assert a * 0x100_0000 + b * 0x1_0000 + c * 0x100 + e == high * 0x80_0000 + low;
    assert 0 <= low < 0x80_0000;
  }

  lemma ParsesTo(s: string, n: nat)
    requires s == DecimalText(n)
    ensures ParseInt(s) == Ok(n)
  {
    DecimalRoundTrip(n);
  }

  lemma ExampleNumbers(ip: string)
    requires ip == "224.128.0.1"
    ensures DottedNumbers(ip) == Ok([224, 128, 0, 1])
  {
    var parts := ["224", "128", "0", "1"];
    assert Join(parts[3..], ".") == "1";
    assert Join(parts[2..], ".") == "0.1";
    assert Join(parts[1..], ".") == "128.0.1";
    assert Join(parts, ".") == ip;
    SplitJoin(parts, '.');
    assert DecimalText(22) == "22";
    ParsesTo("224", 224);
    assert DecimalText(12) == "12";
    ParsesTo("128", 128);
    ParsesTo("0", 0);
    ParsesTo("1", 1);
    var d := ParseAll(parts);
    assert d.Ok? && |d.value| == 4;
    assert d.value[0] == 224 && d.value[1] == 128 && d.value[2] == 0 && d.value[3] == 1;
    assert d.value == [224, 128, 0, 1];
  }

  /** The address in the comment above the function maps to 01:00:5e:00:00:01, with colons. */
  lemma DocumentedExample(ip: string)
    requires ip == "224.128.0.1"
    ensures ConvertMulticastIpToMac(ip) == Ok("01:00:5e:00:00:01")
    ensures ConvertMulticastIpToMac(ip) != Ok("01-00-5e-00-00-01")
  {
    ExampleNumbers(ip);
    assert ConvertMulticastIpToMac(ip) == Ok(MacFromNumbers(128, 0, 1));
    Hex.Format2(0);
    Hex.Format2(1);
    assert MacFromNumbers(128, 0, 1) == "01:00:5e:00:00:01";
  }

  /** `generate_frame_string`: the payload is the frame size minus 14 + 20 + 8 header bytes. */
  function GenerateFrameString(headers: seq<Hex.Byte>, frameSize: int): (r: string)
    ensures |r| == 2 * (|headers| + Ethernet.PayloadLength(frameSize, 42))
    ensures Hex.AllHex(r)
    ensures Hex.Decode(r) == headers + Ethernet.PayloadBytes(Ethernet.PayloadLength(frameSize, 42))
  {
    var bytes := headers + Ethernet.PayloadBytes(Ethernet.PayloadLength(frameSize,
      Ethernet.ETHERNET_HEADER + Ethernet.IPV4_HEADER + Ethernet.UDP_HEADER));
    Hex.EncodeRoundTrip(bytes);
    Hex.Encode(bytes)
  }

  /** The receiving trigger's filter: `"ip dst {} and udp dst port {}"`. */
  function TriggerFilter(dstIp: string, udpDstPort: int): (r: string)
    ensures r == Bpf.Conjunction([Bpf.IpDst(dstIp), Bpf.UdpDstPort(udpDstPort)])
  {
    Bpf.Conjunction2(Bpf.IpDst(dstIp), Bpf.UdpDstPort(udpDstPort));
    "ip dst " + dstIp + " and udp dst port " + IntText(udpDstPort)
  }
}
