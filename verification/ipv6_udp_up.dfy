/**
 * wireless_endpoint/ipv6_udp_up.py: a ByteBlower port with IPv6 addressing (DHCP, stateless
 * autoconfiguration or a manual address) receives a UDP stream sent by a wireless endpoint.
 */
module Ipv6UdpUp {
  import opened Wrappers
  import opened Text
  import Bpf

  /** `port_ip_address`: a text ("dhcp", "slaac", ...) or a list [address, prefix length]. */
  datatype IpConfig = ConfigText(text: string) | ConfigList(address: string, prefixLength: string)

  /** How the port's layer 3 is set up. */
  datatype Setup = Dhcp | Slaac | Manual(ip: string)

  /** ASCII lower-casing, the part of `str.lower` the configuration words need. */
  function Lower(s: string): (r: string)
    ensures |r| == |s|
    ensures forall i :: 0 <= i < |s| ==> r[i] == (if 'A' <= s[i] <= 'Z' then (s[i] as int + 32) as char else s[i])
  {
    if |s| == 0 then "" else Lower(s[..|s| - 1]) + [if 'A' <= s[|s| - 1] <= 'Z' then (s[|s| - 1] as int + 32) as char else s[|s| - 1]]
  }

  /** `"{}/{}".format(address, prefixlength)`. */
  function ManualAddress(address: string, prefixLength: string): (r: string)
    ensures |r| == |address| + 1 + |prefixLength| && r[|address|] == '/'
  {
    address + "/" + prefixLength
  }

  /** An address without '/' is what the text before the first '/' of its manual form gives back. */
  lemma ManualAddressRoundTrip(address: string, prefixLength: string)
    requires '/' !in address
    ensures Split(ManualAddress(address, prefixLength), '/')[0] == address
    ensures BeforeFirst(ManualAddress(address, prefixLength), '/') == address
  {
    SplitAfterField(address, prefixLength, '/');
    BeforeFirstIsFirstField(address + "/" + prefixLength, '/');
  }

  /**
   * The addressing branch of `run`: "dhcp" or "slaac" in any letter case; anything else is
   * indexed as [address, prefix length], so a text other than those two uses its first two
   * characters, and a shorter text raises IndexError.
   */
  function PortSetup(config: IpConfig): (r: Result<Setup>)
    ensures config.ConfigText? && Lower(config.text) == "dhcp" ==> r == Ok(Dhcp)
    ensures config.ConfigText? && Lower(config.text) == "slaac" ==> r == Ok(Slaac)
    ensures config.ConfigList? ==> r == Ok(Manual(ManualAddress(config.address, config.prefixLength)))
    ensures r.Err? <==> config.ConfigText? && Lower(config.text) != "dhcp" && Lower(config.text) != "slaac" && |config.text| < 2
    ensures r.Err? ==> r.error == IndexError
  {
    match config
    case ConfigList(address, prefixLength) => Ok(Manual(ManualAddress(address, prefixLength)))
    case ConfigText(text) =>
      if Lower(text) == "dhcp" then Ok(Dhcp)
      else if Lower(text) == "slaac" then Ok(Slaac)
      else if |text| < 2 then Err(IndexError)
      else Ok(Manual(ManualAddress([text[0]], [text[1]])))
  }

  /** The address lists the port reports. */
  datatype PortAddresses = PortAddresses(linkLocal: seq<string>, dhcp: seq<string>, stateless: seq<string>, manual: seq<string>)

  /**
   * The address list `run` reads back: link-local by default, replaced by the DHCP, stateless or
   * manual list only on an exact "dhcp", an exact "slaac" or a list.
   */
  function AddressList(config: IpConfig, addresses: PortAddresses): (r: seq<string>)
    ensures config == ConfigText("dhcp") ==> r == addresses.dhcp
    ensures config == ConfigText("slaac") ==> r == addresses.stateless
    ensures config.ConfigList? ==> r == addresses.manual
    ensures config.ConfigText? && config.text != "dhcp" && config.text != "slaac" ==> r == addresses.linkLocal
  {
    match config
    case ConfigText(text) =>
      if text == "dhcp" then addresses.dhcp
      else if text == "slaac" then addresses.stateless
      else addresses.linkLocal
    case ConfigList(_, _) => addresses.manual
  }

  /**
   * The address list as the set-up branch intends it, with the same case-insensitive words:
   * the list of the mechanism that configured the port.
   */
  function AddressListCorrected(config: IpConfig, addresses: PortAddresses): (r: seq<string>)
    ensures PortSetup(config) == Ok(Dhcp) ==> r == addresses.dhcp
    ensures PortSetup(config) == Ok(Slaac) ==> r == addresses.stateless
    ensures PortSetup(config).Ok? && PortSetup(config).value.Manual? ==> r == addresses.manual
  {
    match config
    case ConfigText(text) =>
      if Lower(text) == "dhcp" then addresses.dhcp
      else if Lower(text) == "slaac" then addresses.stateless
      else addresses.manual
    case ConfigList(_, _) => addresses.manual
  }

  /** A port configured with "DHCP" runs DHCP but reads back its link-local addresses. */
  lemma UpperCaseDhcpUsesLinkLocal(addresses: PortAddresses)
    ensures PortSetup(ConfigText("DHCP")) == Ok(Dhcp)
    ensures AddressList(ConfigText("DHCP"), addresses) == addresses.linkLocal
    ensures AddressListCorrected(ConfigText("DHCP"), addresses) == addresses.dhcp
  {
    assert Lower("DHCP") == "dhcp" by {
      assert Lower("DHCP")[0] == 'd' && Lower("DHCP")[1] == 'h' && Lower("DHCP")[2] == 'c' && Lower("DHCP")[3] == 'p';
    }
    assert "DHCP"[0] != "dhcp"[0];
  }

  /**
   * The `port_ipv6` loop: every address overwrites it with its part before the first '/', so
   * the LAST address wins; None for an empty list.
   */
  method PortIpv6(ipv6Addresses: seq<string>) returns (portIpv6: Option<string>)
    ensures portIpv6.None? <==> |ipv6Addresses| == 0
    ensures portIpv6.Some? ==> portIpv6.value == Split(ipv6Addresses[|ipv6Addresses| - 1], '/')[0]
    ensures portIpv6.Some? ==> '/' !in portIpv6.value && StartsWith(ipv6Addresses[|ipv6Addresses| - 1], portIpv6.value)
  {
    portIpv6 := None;
    for i := 0 to |ipv6Addresses|
      invariant portIpv6.None? <==> i == 0
      invariant i > 0 ==> portIpv6 == Some(BeforeFirst(ipv6Addresses[i - 1], '/'))
    {
      portIpv6 := Some(BeforeFirst(ipv6Addresses[i], '/'));
    }
    if |ipv6Addresses| > 0 {
      BeforeFirstIsFirstField(ipv6Addresses[|ipv6Addresses| - 1], '/');
    }
  }

  /**
   * The trigger filter "ip6 host <ip> and udp port <port>"; concatenating the missing address
   * (None) raises TypeError.
   */
  function TriggerFilter(portIpv6: Option<string>, udpDstPort: int): (r: Result<string>)
    ensures r.Err? <==> portIpv6.None?
    ensures r.Err? ==> r.error == TypeError
    ensures r.Ok? ==> r.value == Bpf.Conjunction([Bpf.Ip6Host(portIpv6.value), Bpf.UdpPort(udpDstPort)])
  {
    if portIpv6.None? then Err(TypeError)
    else
      Bpf.Conjunction2(Bpf.Ip6Host(portIpv6.value), Bpf.UdpPort(udpDstPort));
      Ok("ip6 host " + portIpv6.value + " and " + "udp port " + IntText(udpDstPort))
  }

  /** A network interface of the wireless endpoint: its name and global IPv6 addresses. */
  datatype NetInterface = NetInterface(name: string, ipv6Global: seq<string>)

  /** The position of the first interface with the given name. */
  function FirstNamed(interfaces: seq<NetInterface>, wanted: string): (r: Option<nat>)
    ensures r.Some? ==> r.value < |interfaces| && interfaces[r.value].name == wanted
    ensures r.Some? ==> forall j :: 0 <= j < r.value ==> interfaces[j].name != wanted
    ensures r.None? <==> forall j :: 0 <= j < |interfaces| ==> interfaces[j].name != wanted
  {
    if |interfaces| == 0 then None
    else if interfaces[0].name == wanted then Some(0)
    else
      match FirstNamed(interfaces[1..], wanted)
      case None => None
      case Some(k) => Some(k + 1)
  }

  /**
   * `select_wireless_endpoint_addresses`: the global addresses, '/prefix' stripped and in
   * order, of the first interface with the traffic interface's name; [] when there is none.
   */
  function SelectWirelessEndpointAddresses(interfaces: seq<NetInterface>, wanted: string): (r: seq<string>)
    ensures FirstNamed(interfaces, wanted).None? ==> r == []
    ensures FirstNamed(interfaces, wanted).Some? ==>
      var found := interfaces[FirstNamed(interfaces, wanted).value].ipv6Global;
      |r| == |found| && forall i :: 0 <= i < |found| ==> r[i] == Split(found[i], '/')[0] && '/' !in r[i]
  {
    match FirstNamed(interfaces, wanted)
    case None => []
    case Some(k) => StripPrefixLengths(interfaces[k].ipv6Global)
  }

  /** `[address.split('/')[0] for address in addresses]`. */
  function StripPrefixLengths(addresses: seq<string>): (r: seq<string>)
    ensures |r| == |addresses|
    ensures forall i :: 0 <= i < |addresses| ==> r[i] == Split(addresses[i], '/')[0] && '/' !in r[i]
  {
    if |addresses| == 0 then []
    else
      BeforeFirstIsFirstField(addresses[0], '/');
      [BeforeFirst(addresses[0], '/')] + StripPrefixLengths(addresses[1..])
  }
}
