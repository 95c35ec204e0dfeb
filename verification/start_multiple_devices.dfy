/**
 * wireless_endpoint/start_multiple_devices.py: an HTTP test started on every available
 * wireless endpoint the licence allows, waited for, then summed over all sessions.
 */
module StartMultipleDevices {
  import opened Wrappers
  import opened Wifi

  /** The 'meetingpoint_address' argument: missing, given as None, or an address. */
  datatype Setting = Missing | NoneValue | Given(address: string)

  /** `kwargs.pop('meetingpoint_address', server)`, with None also falling back to the server. */
  function MeetingPointAddress(setting: Setting, serverAddress: string): (r: string)
    ensures setting.Given? ==> r == setting.address
    ensures !setting.Given? ==> r == serverAddress
  {
    match setting
    case Given(a) => a
    case _ => serverAddress
  }

  /** The key `__init__` reads the UUID list from. */
  const UUIDS_KEY := "wireless_endpoint_uuids"

  /** `kwargs.pop('wireless_endpoint_uuids', [])`. */
  function ConfiguredUuids(kwargs: map<string, seq<string>>): (r: seq<string>)
    ensures UUIDS_KEY in kwargs ==> r == kwargs[UUIDS_KEY]
    ensures UUIDS_KEY !in kwargs ==> r == []
  {
    if UUIDS_KEY in kwargs then kwargs[UUIDS_KEY] else []
  }

  /**
   * The example's configuration names its list 'wireless_endpoint_uuid_list', which is never
   * read: the list starts empty whatever it holds.
   */
  lemma ConfiguredListIgnored(uuidList: seq<string>)
    ensures ConfiguredUuids(map["wireless_endpoint_uuid_list" := uuidList]) == []
  {
    assert "wireless_endpoint_uuid_list" != UUIDS_KEY by {
      assert |"wireless_endpoint_uuid_list"| != |UUIDS_KEY|;
    }
  }

  /** `uuids[:n]` when longer than `n`, else the list itself. */
  function Truncate(uuids: seq<string>, n: nat): (r: seq<string>)
    ensures |r| == if |uuids| > n then n else |uuids|
    ensures r == uuids[..|r|]
  {
    if |uuids| > n then uuids[..n] else uuids
  }

  /**
   * The devices `run` uses: the configured UUIDs, or every Available device when none are
   * configured, cut to the number of wireless endpoints the licence allows.
   */
  function ChooseDevices(configured: seq<string>, devices: seq<Device>, maxAllowed: nat): (r: seq<string>)
    ensures |r| <= maxAllowed
    ensures configured != [] ==> r == Truncate(configured, maxAllowed)
    ensures configured == [] ==> r == Truncate(AvailableUuids(devices), maxAllowed)
  {
    Truncate(if configured == [] then AvailableUuids(devices) else configured, maxAllowed)
  }

  /** A device is busy with a test unless it is Reserved or Available. */
  predicate IsRunning(s: DeviceStatus)
  {
    s != Reserved && s != Available
  }

  function CountRunning(statuses: seq<DeviceStatus>): (n: nat)
    ensures n <= |statuses|
  {
    if statuses == [] then 0
    else CountRunning(statuses[..|statuses| - 1]) + (if IsRunning(statuses[|statuses| - 1]) then 1 else 0)
  }

  /** The count is zero exactly when no device is running. */
  lemma {:induction false} CountRunningZero(statuses: seq<DeviceStatus>)
    ensures CountRunning(statuses) == 0 <==> forall i :: 0 <= i < |statuses| ==> !IsRunning(statuses[i])
  {
    if statuses != [] {
      var init := statuses[..|statuses| - 1];
      CountRunningZero(init);
      assert forall i :: 0 <= i < |init| ==> init[i] == statuses[i];
    }
  }

  /**
   * One pass of the waiting loop: count the devices not in {Reserved, Available}; the loop
   * goes on exactly when some are.
   */
  method PollDevices(statuses: seq<DeviceStatus>) returns (stillRunning: bool, runningDevices: nat)
    ensures runningDevices == CountRunning(statuses)
    ensures stillRunning <==> runningDevices > 0
  {
    stillRunning := false;
    runningDevices := 0;
    for i := 0 to |statuses|
      invariant runningDevices == CountRunning(statuses[..i])
      invariant stillRunning <==> runningDevices > 0
    {
      assert statuses[..i + 1][..i] == statuses[..i];
      if IsRunning(statuses[i]) {
        stillRunning := true;
        runningDevices := runningDevices + 1;
      }
    }
    assert statuses[..|statuses|] == statuses;
  }

  /** What one HTTP session's cumulative result reports. */
  datatype Cumulative = Cumulative(mbps: real, rxFirst: int, txFirst: int, rxLast: int, txLast: int)

  datatype SessionResult = SessionResult(throughput: real, timestampFirst: int, timestampLast: int)

  /** `collect_result`: the throughput, the earlier of the first timestamps and the later of the last. */
  function CollectResult(c: Cumulative): (r: SessionResult)
    ensures r.throughput == c.mbps
    ensures r.timestampFirst <= c.rxFirst && r.timestampFirst <= c.txFirst
    ensures r.timestampFirst == c.rxFirst || r.timestampFirst == c.txFirst
    ensures r.timestampLast >= c.rxLast && r.timestampLast >= c.txLast
    ensures r.timestampLast == c.rxLast || r.timestampLast == c.txLast
  {
    SessionResult(c.mbps,
      if c.rxFirst <= c.txFirst then c.rxFirst else c.txFirst,
      if c.rxLast >= c.txLast then c.rxLast else c.txLast)
  }

  function TotalThroughput(cs: seq<Cumulative>): real
  {
    if cs == [] then 0.0 else TotalThroughput(cs[..|cs| - 1]) + cs[|cs| - 1].mbps
  }

  /**
   * `collect_results`: one session entry per client identifier, in order, and a total that is
   * the sum of the session throughputs.
   */
  method CollectResults(cs: seq<Cumulative>) returns (sessions: seq<SessionResult>, total: real)
    ensures |sessions| == |cs|
    ensures forall i :: 0 <= i < |cs| ==> sessions[i] == CollectResult(cs[i])
    ensures total == TotalThroughput(cs)
  {
    sessions := [];
    total := 0.0;
    for i := 0 to |cs|
      invariant |sessions| == i
      invariant forall j :: 0 <= j < i ==> sessions[j] == CollectResult(cs[j])
      invariant total == TotalThroughput(cs[..i])
    {
      assert cs[..i + 1][..i] == cs[..i];
      var r := CollectResult(cs[i]);
      total := total + r.throughput;
      sessions := sessions + [r];
    }
    assert cs[..|cs|] == cs;
  }
}
