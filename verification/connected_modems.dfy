/**
 * server_management/connected_modems.py: discovers the modems behind a ByteBlower server's
 * interfaces by running DHCP on a port per interface and resolving each gateway.
 */
module ConnectedModems {
  import opened Wrappers
  import opened Text
  import Hex
  import MacText

  /** The groups of `a_mac_address`: "00", "bb" and four random values formatted with "%2x". */
  function MacGroups(random: seq<Hex.Byte>): (r: seq<string>)
    requires |random| == 4
    ensures |r| == 6 && r[0] == "00" && r[1] == "bb"
    ensures forall i :: 2 <= i < 6 ==> r[i] == Hex.SpacePadded2(random[i - 2])
  {
    ["00", "bb"] + seq(4, i requires 0 <= i < 4 => Hex.SpacePadded2(random[i]))
  }

  /** `a_mac_address`: the groups joined by colons. */
  function AMacAddress(random: seq<Hex.Byte>): string
    requires |random| == 4
  {
    Join(MacGroups(random), ":")
  }

  /** "%2x" of a byte: two characters, a space and one hex digit below 16, else two hex digits. */
  lemma SpacePadded2Shape(n: Hex.Byte)
    ensures |Hex.SpacePadded2(n)| == 2 && ':' !in Hex.SpacePadded2(n)
    ensures n < 16 ==> Hex.SpacePadded2(n)[0] == ' '
    ensures n >= 16 ==> Hex.SpacePadded2(n) == Hex.Format(n, 2) && Hex.AllHex(Hex.SpacePadded2(n))
  {
    if n >= 16 {
      Hex.FormatExact(n, 2);
    }
  }

  /**
   * `a_mac_address` always has six colon-separated groups, but a random value below 16 yields
   * a group with a space instead of a leading zero, which is not a MAC address.
   */
  lemma SpacePaddedMacIsMalformed(random: seq<Hex.Byte>)
    requires |random| == 4
    ensures |Split(AMacAddress(random), ':')| == 6
    ensures (exists i :: 0 <= i < 4 && random[i] < 16) ==> !MacText.WellFormed(AMacAddress(random))
  {
    var g := MacGroups(random);
    forall i | 0 <= i < 6
      ensures ':' !in g[i]
    {
      if i >= 2 {
        SpacePadded2Shape(random[i - 2]);
      }
    }
    SplitJoin(g, ':');
    if exists i :: 0 <= i < 4 && random[i] < 16 {
      var i :| 0 <= i < 4 && random[i] < 16;
      SpacePadded2Shape(random[i]);
      assert !Hex.IsHexDigit(g[i + 2][0]);
    }
  }

  /** A concrete draw: 10, 0, 0, 0 gives "00:bb: a: 0: 0: 0". */
  lemma SpacePaddedExample()
    ensures !MacText.WellFormed(AMacAddress([10, 0, 0, 0]))
  {
    SpacePaddedMacIsMalformed([10, 0, 0, 0]);
  }

  /** With every random value at least 16, "%2x" and "%02x" agree and the address is the intended one. */
  lemma LargeValuesGiveIntendedMac(random: seq<Hex.Byte>)
    requires |random| == 4
    requires forall i :: 0 <= i < 4 ==> random[i] >= 16
    ensures AMacAddress(random) == MacText.BbMac(random)
  {
    var octets: seq<nat> := [0, 0xbb] + random;
    assert Hex.Format(0, 2) == "00" by {
      assert Hex.Format(0, 1) == [Hex.HexDigit(0)];
    }
    assert Hex.Format(0xbb, 2) == "bb" by {
      assert Hex.Format(11, 1) == [Hex.HexDigit(11)];
    }
    forall i | 0 <= i < 4
      ensures Hex.SpacePadded2(random[i]) == Hex.Format(random[i], 2)
    {
    }
    assert MacGroups(random) == MacText.Groups(octets);
  }

  /** `an_bb_interface.startswith(trunkbase)`, kept in order: the interfaces that are scanned. */
  function WithPrefix(names: seq<string>, trunkbase: string): (r: seq<string>)
    ensures forall n :: n in r <==> n in names && StartsWith(n, trunkbase)
    ensures |r| <= |names|
  {
    if |names| == 0 then []
    else
      var rest := WithPrefix(names[..|names| - 1], trunkbase);
      var last := names[|names| - 1];
      assert names == names[..|names| - 1] + [last];
      if StartsWith(last, trunkbase) then rest + [last] else rest
  }

  /** The empty base keeps every interface. */
  lemma {:induction false} EmptyBaseKeepsAll(names: seq<string>)
    ensures WithPrefix(names, "") == names
  {
    if |names| > 0 {
      EmptyBaseKeepsAll(names[..|names| - 1]);
      assert names == names[..|names| - 1] + [names[|names| - 1]];
    }
  }

  /** The ports, in order, whose DHCP outcome is `succeeded`. */
  function WithDhcp(ports: seq<string>, dhcpOk: string -> bool, succeeded: bool): (r: seq<string>)
    ensures forall p :: p in r <==> p in ports && dhcpOk(p) == succeeded
  {
    if |ports| == 0 then []
    else
      var rest := WithDhcp(ports[..|ports| - 1], dhcpOk, succeeded);
      var last := ports[|ports| - 1];
      assert ports == ports[..|ports| - 1] + [last];
      if dhcpOk(last) == succeeded then rest + [last] else rest
  }

  /** Each port ends up among the responding ports or the failed ones, exactly as often as it was created. */
  lemma {:induction false} DhcpPartitions(ports: seq<string>, dhcpOk: string -> bool)
    ensures multiset(WithDhcp(ports, dhcpOk, false)) + multiset(WithDhcp(ports, dhcpOk, true)) == multiset(ports)
  {
    if |ports| > 0 {
      DhcpPartitions(ports[..|ports| - 1], dhcpOk);
      assert ports == ports[..|ports| - 1] + [ports[|ports| - 1]];
    }
  }

  /** The first loop of `inspect_trunk`: a port for every interface whose name has the base. */
  method TrunkPorts(interfaceNames: seq<string>, trunkbase: string) returns (ports: seq<string>)
    ensures ports == WithPrefix(interfaceNames, trunkbase)
  {
    ports := [];
    for i := 0 to |interfaceNames|
      invariant ports == WithPrefix(interfaceNames[..i], trunkbase)
    {
      assert interfaceNames[..i + 1][..i] == interfaceNames[..i];
      if !StartsWith(interfaceNames[i], trunkbase) {
        continue;
      }
      ports := ports + [interfaceNames[i]];
    }
    assert interfaceNames[..|interfaceNames|] == interfaceNames;
  }

  /** The DHCP loop of `inspect_trunk`: the responding ports, and the failed ones, destroyed at once. */
  method DhcpRound(ports: seq<string>, dhcpOk: string -> bool) returns (responding: seq<string>, failed: seq<string>)
    ensures responding == WithDhcp(ports, dhcpOk, true)
    ensures failed == WithDhcp(ports, dhcpOk, false)
  {
    responding := [];
    failed := [];
    for i := 0 to |ports|
      invariant responding == WithDhcp(ports[..i], dhcpOk, true)
      invariant failed == WithDhcp(ports[..i], dhcpOk, false)
    {
      assert ports[..i + 1][..i] == ports[..i];
      if dhcpOk(ports[i]) {
        responding := responding + [ports[i]];
      } else {
        failed := failed + [ports[i]];
      }
    }
    assert ports[..|ports|] == ports;
  }

  /**
   * `inspect_trunk`: a port per interface with the base prefix, the ports whose DHCP
   * succeeds, and the order in which ports are destroyed (failed ones during the DHCP loop,
   * then every responding one after its gateway lookup). `dhcpOk` is the DHCP outcome of the
   * port on an interface.
   */
  method InspectTrunk(interfaceNames: seq<string>, trunkbase: string, dhcpOk: string -> bool)
    returns (ports: seq<string>, responding: seq<string>, destroyed: seq<string>)
    ensures ports == WithPrefix(interfaceNames, trunkbase)
    ensures responding == WithDhcp(ports, dhcpOk, true)
    ensures destroyed == WithDhcp(ports, dhcpOk, false) + responding
    ensures multiset(destroyed) == multiset(ports)
  {
    ports := TrunkPorts(interfaceNames, trunkbase);
    responding, destroyed := DhcpRound(ports, dhcpOk);
    for i := 0 to |responding|
      invariant destroyed == WithDhcp(ports, dhcpOk, false) + responding[..i]
    {
      assert responding[..i + 1] == responding[..i] + [responding[i]];
      destroyed := destroyed + [responding[i]];
    }
    assert responding[..|responding|] == responding;
    DhcpPartitions(ports, dhcpOk);
  }

  /** The command line: the server address and an optional interface-name base. */
  function ParseArguments(argv: seq<string>): (r: Option<(string, string)>)
    ensures r.Some? <==> 2 <= |argv| <= 3
    ensures r.Some? ==> r.value.0 == argv[1] && r.value.1 == (if |argv| == 3 then argv[2] else "")
  {
    if !(2 <= |argv| <= 3) then None
    else Some((argv[1], if |argv| == 3 then argv[2] else ""))
  }
}
