/**
 * The network-interface and device selection rules of the wireless-endpoint demos
 * (demo_scripts/throughput_rssi_ssid_bssid_tcp.py, demo_scripts/throughput_rssi_ssid_bssid_udp.py,
 * demo_scripts/influence_of_network_monitor_on_tcp_throughput.py and demo_scripts/rssi_vs_udp_loss.py
 * carry the same `find_wifi_interface`), and the device lookups on the meeting point.
 */
module Wifi {
  import opened Wrappers

  datatype InterfaceType = WiFi | Ethernet | OtherType

  /** What an endpoint reports about one of its network interfaces. */
  datatype Interface = Interface(
    displayName: string, name: string, kind: InterfaceType,
    ssid: string, bssid: string, channel: int, rssi: int, txRate: int)

  /** The states a wireless endpoint reports to the meeting point. */
  datatype DeviceStatus = Available | Reserved | Starting | Armed | Running | Finished | Unavailable

  /** A device on the meeting point: its UUID and status. */
  datatype Device = Device(uuid: string, status: DeviceStatus)

  predicate NameMatches(i: Interface, wanted: string)
  {
    i.displayName == wanted || i.name == wanted
  }

  predicate HasSsid(i: Interface)
  {
    i.kind == WiFi && i.ssid != ""
  }

  /** The position of the first interface named `wanted` (display name or name). */
  function FirstNamed(interfaces: seq<Interface>, wanted: string): (r: Option<nat>)
    ensures r.Some? ==> r.value < |interfaces| && NameMatches(interfaces[r.value], wanted)
    ensures r.Some? ==> forall j :: 0 <= j < r.value ==> !NameMatches(interfaces[j], wanted)
    ensures r.None? ==> forall j :: 0 <= j < |interfaces| ==> !NameMatches(interfaces[j], wanted)
  {
    if interfaces == [] then None
    else if NameMatches(interfaces[0], wanted) then Some(0)
    else
      match FirstNamed(interfaces[1..], wanted)
      case None => None
      case Some(k) => Some(k + 1)
  }

  /** The position of the first WiFi interface with an SSID. */
  function FirstWithSsid(interfaces: seq<Interface>): (r: Option<nat>)
    ensures r.Some? ==> r.value < |interfaces| && HasSsid(interfaces[r.value])
    ensures r.Some? ==> forall j :: 0 <= j < r.value ==> !HasSsid(interfaces[j])
    ensures r.None? ==> forall j :: 0 <= j < |interfaces| ==> !HasSsid(interfaces[j])
  {
    if interfaces == [] then None
    else if HasSsid(interfaces[0]) then Some(0)
    else
      match FirstWithSsid(interfaces[1..])
      case None => None
      case Some(k) => Some(k + 1)
  }

  /**
   * `find_wifi_interface`: with a wanted name, the first interface carrying it; failing that
   * (or without a name), the first WiFi interface with a non-empty SSID; else none.
   */
  function FindWifiInterface(interfaces: seq<Interface>, wanted: Option<string>): (r: Option<nat>)
    ensures wanted.Some? && FirstNamed(interfaces, wanted.value).Some? ==>
      r == FirstNamed(interfaces, wanted.value)
    ensures (wanted.None? || FirstNamed(interfaces, wanted.value).None?) ==> r == FirstWithSsid(interfaces)
  {
    if wanted.Some? && FirstNamed(interfaces, wanted.value).Some? then FirstNamed(interfaces, wanted.value)
    else FirstWithSsid(interfaces)
  }

  /** The interface found is named as wanted, or a WiFi interface with an SSID; none only when neither exists. */
  lemma FoundInterfaceQualifies(interfaces: seq<Interface>, wanted: Option<string>)
    ensures var r := FindWifiInterface(interfaces, wanted);
      r.Some? ==> (r.value < |interfaces| &&
        ((wanted.Some? && NameMatches(interfaces[r.value], wanted.value)) || HasSsid(interfaces[r.value])))
    ensures FindWifiInterface(interfaces, wanted).None? <==>
      (forall j :: 0 <= j < |interfaces| ==> !HasSsid(interfaces[j])) &&
      (wanted.None? || forall j :: 0 <= j < |interfaces| ==> !NameMatches(interfaces[j], wanted.value))
  {
    if wanted.Some? && FirstNamed(interfaces, wanted.value).None? && FirstWithSsid(interfaces).None? {
      assert forall j :: 0 <= j < |interfaces| ==> !NameMatches(interfaces[j], wanted.value);
    }
  }

  /** `select_wireless_endpoint_uuid`: the UUID of the first Available device, or None. */
  function SelectFirstAvailable(devices: seq<Device>): (r: Option<string>)
    ensures r.None? <==> forall j :: 0 <= j < |devices| ==> devices[j].status != Available
    ensures r.Some? ==> exists k :: (0 <= k < |devices| && devices[k].status == Available &&
      devices[k].uuid == r.value && forall j :: 0 <= j < k ==> devices[j].status != Available)
  {
    if devices == [] then None
    else if devices[0].status == Available then
      Some(devices[0].uuid)
    else
      var rest := SelectFirstAvailable(devices[1..]);
      if rest.Some? then
        var k :| 0 <= k < |devices[1..]| && devices[1..][k].status == Available &&
          devices[1..][k].uuid == rest.value && forall j :: 0 <= j < k ==> devices[1..][j].status != Available;
        assert devices[k + 1].uuid == rest.value;
        assert forall j :: 0 <= j < k + 1 ==> devices[j].status != Available by {
          forall j | 0 <= j < k + 1 ensures devices[j].status != Available {
            if j > 0 { assert devices[j] == devices[1..][j - 1]; }
          }
        }
        rest
      else
        assert forall j :: 1 <= j < |devices| ==> devices[j] == devices[1..][j - 1];
        rest
  }

  /** The UUIDs of the Available devices, in list order. */
  function AvailableUuids(devices: seq<Device>): (r: seq<string>)
    ensures |r| <= |devices|
  {
    if devices == [] then []
    else
      var init := AvailableUuids(devices[..|devices| - 1]);
      if devices[|devices| - 1].status == Available then init + [devices[|devices| - 1].uuid] else init
  }

  /** A UUID is selected exactly when some Available device carries it. */
  lemma {:induction false} AvailableUuidsMembers(devices: seq<Device>, u: string)
    ensures u in AvailableUuids(devices) <==>
      exists k :: 0 <= k < |devices| && devices[k].status == Available && devices[k].uuid == u
    decreases |devices|
  {
    if devices != [] {
      var init := devices[..|devices| - 1];
      AvailableUuidsMembers(init, u);
      assert forall j :: 0 <= j < |init| ==> init[j] == devices[j];
      if exists k :: 0 <= k < |devices| && devices[k].status == Available && devices[k].uuid == u {
        var k :| 0 <= k < |devices| && devices[k].status == Available && devices[k].uuid == u;
        if k < |init| {
          assert init[k].status == Available && init[k].uuid == u;
        }
      }
    }
  }

  /** `select_wireless_endpoint_uuids`: append the UUID of every Available device. */
  method SelectAllAvailable(devices: seq<Device>) returns (uuids: seq<string>)
    ensures uuids == AvailableUuids(devices)
  {
    uuids := [];
    for i := 0 to |devices|
      invariant uuids == AvailableUuids(devices[..i])
    {
      assert devices[..i + 1][..i] == devices[..i];
      if devices[i].status == Available {
        uuids := uuids + [devices[i].uuid];
      }
    }
    assert devices[..|devices|] == devices;
  }

  /** The first UUID of the full selection is the one the single selection picks. */
  lemma {:induction false} FirstOfAllAvailable(devices: seq<Device>)
    ensures AvailableUuids(devices) == [] <==> SelectFirstAvailable(devices).None?
    ensures AvailableUuids(devices) != [] ==> AvailableUuids(devices)[0] == SelectFirstAvailable(devices).value
    decreases |devices|
  {
    if devices != [] {
      var init := devices[..|devices| - 1];
      FirstOfAllAvailable(init);
      assert forall j :: 0 <= j < |init| ==> init[j] == devices[j];
      if SelectFirstAvailable(init).Some? {
        var k :| 0 <= k < |init| && init[k].status == Available && init[k].uuid == SelectFirstAvailable(init).value
          && forall j :: 0 <= j < k ==> init[j].status != Available;
        assert SelectFirstAvailable(devices).Some?;
        var k2 :| 0 <= k2 < |devices| && devices[k2].status == Available &&
          devices[k2].uuid == SelectFirstAvailable(devices).value &&
          forall j :: 0 <= j < k2 ==> devices[j].status != Available;
        assert k2 == k;
      } else if devices[|devices| - 1].status == Available {
        var k2 :| 0 <= k2 < |devices| && devices[k2].status == Available &&
          devices[k2].uuid == SelectFirstAvailable(devices).value &&
          forall j :: 0 <= j < k2 ==> devices[j].status != Available;
        assert k2 == |devices| - 1;
      }
    }
  }
}
