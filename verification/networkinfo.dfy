/**
 * wireless_endpoint/networkinfo.py: polls the network information a wireless endpoint last
 * reported to the meeting point, once a second, for a configured number of seconds.
 */
module NetworkInfo {
  import opened Wrappers
  import opened Text
  import opened PyMath
  import Wifi

  /** The first interface whose display name is the wanted one. */
  function FirstDisplayNamed(interfaces: seq<Wifi.Interface>, wanted: string): (r: Option<nat>)
    ensures r.Some? ==> r.value < |interfaces| && interfaces[r.value].displayName == wanted
    ensures r.Some? ==> forall j :: 0 <= j < r.value ==> interfaces[j].displayName != wanted
    ensures r.None? <==> forall j :: 0 <= j < |interfaces| ==> interfaces[j].displayName != wanted
  {
    if |interfaces| == 0 then None
    else if interfaces[0].displayName == wanted then Some(0)
    else
      match FirstDisplayNamed(interfaces[1..], wanted)
      case None => None
      case Some(k) => Some(k + 1)
  }

  /**
   * The search loop of `run`: it breaks at the first interface whose display name matches;
   * without a match the loop variable stays bound to the LAST interface, so the result is None
   * only for an empty list.
   */
  method SelectInterface(interfaces: seq<Wifi.Interface>, wanted: string) returns (selected: Option<nat>)
    ensures selected.None? <==> |interfaces| == 0
    ensures FirstDisplayNamed(interfaces, wanted).Some? ==> selected == FirstDisplayNamed(interfaces, wanted)
    ensures |interfaces| > 0 && FirstDisplayNamed(interfaces, wanted).None? ==> selected == Some(|interfaces| - 1)
  {
    selected := None;
    var i := 0;
    while i < |interfaces|
      invariant 0 <= i <= |interfaces|
      invariant forall j :: 0 <= j < i ==> interfaces[j].displayName != wanted
      invariant selected == (if i == 0 then None else Some(i - 1))
    {
      selected := Some(i);
      if interfaces[i].displayName == wanted {
        return;
      }
      i := i + 1;
    }
  }

  /** One polled tuple: quoted SSID, quoted BSSID, channel, RSSI and Tx rate. */
  datatype Row = Row(ssid: string, bssid: string, channel: int, rssi: int, txRate: int)

  /** What `run` ends with. */
  datatype Outcome =
    | NoDevice                                    // no UUID given and none available: aborted
    | InterfaceNotFound                           // the endpoint reported no interface: returns 1
    | Polled(interface: nat, rows: seq<Row>)      // the selected interface and the collected tuples

  /**
   * `run`: the UUID is the configured one or the first available device's; the interface is
   * chosen by SelectInterface; then `duration_s` tuples are collected, the k-th from the
   * interface's values after the k-th refresh (`poll`).
   */
  method Run(uuid: Option<string>, devices: seq<Wifi.Device>, interfaces: seq<Wifi.Interface>, wanted: string,
             durationS: int, poll: (Wifi.Interface, nat) -> Wifi.Interface) returns (r: Outcome)
    ensures r.NoDevice? <==> uuid.None? && Wifi.SelectFirstAvailable(devices).None?
    ensures r.InterfaceNotFound? <==> !r.NoDevice? && |interfaces| == 0
    ensures r.Polled? ==> r.interface < |interfaces| && |r.rows| == NonNeg(durationS)
    ensures r.Polled? ==>
      Some(r.interface) == (if FirstDisplayNamed(interfaces, wanted).Some? then FirstDisplayNamed(interfaces, wanted)
                            else Some(|interfaces| - 1))
    ensures r.Polled? ==> forall k :: 0 <= k < |r.rows| ==>
      var now := poll(interfaces[r.interface], k);
      r.rows[k] == Row(Quote(now.ssid), Quote(now.bssid), now.channel, now.rssi, now.txRate)
  {
    var endpoint := if uuid.Some? then uuid else Wifi.SelectFirstAvailable(devices);
    if endpoint.None? {
      return NoDevice;
    }
    var selected := SelectInterface(interfaces, wanted);
    if selected.None? {
      return InterfaceNotFound;
    }
    var networkInterface := interfaces[selected.value];
    var results: seq<Row> := [];
    for k := 0 to NonNeg(durationS)
      invariant |results| == k
      invariant forall m :: 0 <= m < k ==>
        var now := poll(networkInterface, m);
        results[m] == Row(Quote(now.ssid), Quote(now.bssid), now.channel, now.rssi, now.txRate)
    {
      var now := poll(networkInterface, k);
      results := results + [Row(Quote(now.ssid), Quote(now.bssid), now.channel, now.rssi, now.txRate)];
    }
    return Polled(selected.value, results);
  }
}
