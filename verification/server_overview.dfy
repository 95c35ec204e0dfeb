/**
 * server_management/server_overview.py: exports, per traffic interface of a ByteBlower server,
 * the number of API users and a counter of received bytes, refreshed in a loop.
 */
module ServerOverview {
  import opened Wrappers

  /**
   * The bookkeeping dict of one interface: its "prev_bytes" entry and the entries written
   * under integer keys (the trigger object "ctr" is not modelled; its readings are parameters).
   */
  datatype TrafficInfo = TrafficInfo(prevBytes: int, written: map<int, int>)

  /** `by_interface` after the loop: for each interface, how many of the users are on it. */
  function ByInterface(users: seq<string>): (r: map<string, nat>)
  {
    if |users| == 0 then map[]
    else
      var m := ByInterface(users[..|users| - 1]);
      var name := users[|users| - 1];
      m[name := if name in m then m[name] + 1 else 1]
  }

  /**
   * The grouping counts exactly: an interface is a key iff some user is on it, and its count is
   * the number of users on it; every count is at least one.
   */
  lemma {:induction false} ByInterfaceCounts(users: seq<string>)
    ensures forall name :: name in ByInterface(users) <==> name in users
    ensures forall name :: name in ByInterface(users) ==> ByInterface(users)[name] == multiset(users)[name] >= 1
  {
    if |users| > 0 {
      var prefix := users[..|users| - 1];
      ByInterfaceCounts(prefix);
      assert users == prefix + [users[|users| - 1]];
    }
  }

  /** The counter and "prev_bytes" of one interface after one `traffic_count` pass, as written. */
  function TrafficStep(counter: int, info: TrafficInfo, currentBytes: int): (r: (int, TrafficInfo))
    ensures r.0 - counter == currentBytes - info.prevBytes
    ensures r.1.prevBytes == info.prevBytes
  {
    (counter + (currentBytes - info.prevBytes), TrafficInfo(info.prevBytes, info.written[info.prevBytes := currentBytes]))
  }

  /** One pass as evidently intended: the reading is remembered as the new "prev_bytes". */
  function TrafficStepCorrected(counter: int, info: TrafficInfo, currentBytes: int): (r: (int, TrafficInfo))
    ensures r.0 - counter == currentBytes - info.prevBytes
    ensures r.1.prevBytes == currentBytes
  {
    (counter + (currentBytes - info.prevBytes), info.(prevBytes := currentBytes))
  }

  /** The first loop of `user_count`: the users grouped by interface, counted one by one. */
  method GroupByInterface(userInterfaces: seq<string>) returns (byInterface: map<string, nat>)
    ensures byInterface == ByInterface(userInterfaces)
  {
    byInterface := map[];
    for i := 0 to |userInterfaces|
      invariant byInterface == ByInterface(userInterfaces[..i])
    {
      var name := userInterfaces[i];
      assert userInterfaces[..i + 1][..i] == userInterfaces[..i];
      if name in byInterface {
        byInterface := byInterface[name := byInterface[name] + 1];
      } else {
        byInterface := byInterface[name := 1];
      }
    }
    assert userInterfaces[..|userInterfaces|] == userInterfaces;
  }

  class ServerMetrics {
    var serverAddr: string
    /** `port_counters`: the bookkeeping of each traffic interface. */
    var portCounters: map<string, TrafficInfo>
    /** The `byteblower_server_api_users` gauge of this server, per interface. */
    var users: map<string, int>
    /** The `byteblower_server_interface_counter` counter of this server, per interface. */
    var traffic: map<string, int>

    /** `__init__`: one bookkeeping dict per interface name, with "prev_bytes" 0. */
    constructor (serverAddr: string, interfaceNames: seq<string>)
      ensures this.serverAddr == serverAddr
      ensures portCounters.Keys == set name | name in interfaceNames
      ensures forall name :: name in portCounters ==> portCounters[name] == TrafficInfo(0, map[])
      ensures users == map[] && traffic == map[]
    {
      this.serverAddr := serverAddr;
      var counters: map<string, TrafficInfo> := map[];
      for i := 0 to |interfaceNames|
        invariant counters.Keys == set name | name in interfaceNames[..i]
        invariant forall name :: name in counters ==> counters[name] == TrafficInfo(0, map[])
      {
        counters := counters[interfaceNames[i] := TrafficInfo(0, map[])];
      }
      assert interfaceNames[..|interfaceNames|] == interfaceNames;
      portCounters := counters;
      users := map[];
      traffic := map[];
    }

    /**
     * `user_count`: the gauge of every interface that has users is set to its number of users;
     * interfaces without users keep their previous value.
     */
    method UserCount(userInterfaces: seq<string>)
      modifies this
      ensures users == old(users) + ByInterface(userInterfaces)
      ensures serverAddr == old(serverAddr) && portCounters == old(portCounters) && traffic == old(traffic)
    {
      var byInterface := GroupByInterface(userInterfaces);
      ghost var before := users;
      var remaining := byInterface.Keys;
      while remaining != {}
        invariant remaining <= byInterface.Keys
        invariant users.Keys == before.Keys + (byInterface.Keys - remaining)
        invariant forall name :: name in users ==>
          users[name] == if name in byInterface && name !in remaining then byInterface[name] else before[name]
        invariant serverAddr == old(serverAddr) && portCounters == old(portCounters) && traffic == old(traffic)
        decreases remaining
      {
        var name :| name in remaining;
        users := users[name := byInterface[name]];
        remaining := remaining - {name};
      }
      assert users == before + byInterface;
    }

    /**
     * `traffic_count` as written: every interface's counter grows by its reading minus its
     * "prev_bytes", and the reading is stored under the integer key equal to "prev_bytes", so
     * "prev_bytes" itself never changes.
     */
    method TrafficCount(currentBytes: map<string, int>)
      requires portCounters.Keys <= currentBytes.Keys
      modifies this
      ensures portCounters.Keys == old(portCounters.Keys)
      ensures forall name :: name in portCounters ==>
        (Counted(traffic, name), portCounters[name]) ==
        TrafficStep(Counted(old(traffic), name), old(portCounters[name]), currentBytes[name])
      ensures forall name :: name !in portCounters ==> Counted(traffic, name) == Counted(old(traffic), name)
      ensures serverAddr == old(serverAddr) && users == old(users)
    {
      var remaining := portCounters.Keys;
      while remaining != {}
        invariant remaining <= portCounters.Keys == old(portCounters.Keys)
        invariant forall name :: name in remaining ==>
          portCounters[name] == old(portCounters[name]) && Counted(traffic, name) == Counted(old(traffic), name)
        invariant forall name :: name in portCounters && name !in remaining ==>
          (Counted(traffic, name), portCounters[name]) ==
          TrafficStep(Counted(old(traffic), name), old(portCounters[name]), currentBytes[name])
        invariant forall name :: name !in portCounters ==> Counted(traffic, name) == Counted(old(traffic), name)
        invariant serverAddr == old(serverAddr) && users == old(users)
        decreases remaining
      {
        var name :| name in remaining;
        var step := TrafficStep(Counted(traffic, name), portCounters[name], currentBytes[name]);
        traffic := traffic[name := step.0];
        portCounters := portCounters[name := step.1];
        remaining := remaining - {name};
      }
    }

    /** `traffic_count` as evidently intended: the reading becomes the new "prev_bytes". */
    method TrafficCountCorrected(currentBytes: map<string, int>)
      requires portCounters.Keys <= currentBytes.Keys
      modifies this
      ensures portCounters.Keys == old(portCounters.Keys)
      ensures forall name :: name in portCounters ==>
        (Counted(traffic, name), portCounters[name]) ==
        TrafficStepCorrected(Counted(old(traffic), name), old(portCounters[name]), currentBytes[name])
      ensures forall name :: name !in portCounters ==> Counted(traffic, name) == Counted(old(traffic), name)
      ensures serverAddr == old(serverAddr) && users == old(users)
    {
      var remaining := portCounters.Keys;
      while remaining != {}
        invariant remaining <= portCounters.Keys == old(portCounters.Keys)
        invariant forall name :: name in remaining ==>
          portCounters[name] == old(portCounters[name]) && Counted(traffic, name) == Counted(old(traffic), name)
        invariant forall name :: name in portCounters && name !in remaining ==>
          (Counted(traffic, name), portCounters[name]) ==
          TrafficStepCorrected(Counted(old(traffic), name), old(portCounters[name]), currentBytes[name])
        invariant forall name :: name !in portCounters ==> Counted(traffic, name) == Counted(old(traffic), name)
        invariant serverAddr == old(serverAddr) && users == old(users)
        decreases remaining
      {
        var name :| name in remaining;
        var step := TrafficStepCorrected(Counted(traffic, name), portCounters[name], currentBytes[name]);
        traffic := traffic[name := step.0];
        portCounters := portCounters[name := step.1];
        remaining := remaining - {name};
      }
    }
  }

  /** A counter's value, 0 before its first increment. */
  function Counted(counter: map<string, int>, name: string): int
  {
    if name in counter then counter[name] else 0
  }

  /** The counter of one interface after a run of `traffic_count` passes with the given readings. */
  function CounterAfter(readings: seq<int>, corrected: bool): (r: (int, TrafficInfo))
  {
    if |readings| == 0 then (0, TrafficInfo(0, map[]))
    else
      var before := CounterAfter(readings[..|readings| - 1], corrected);
      if corrected then TrafficStepCorrected(before.0, before.1, readings[|readings| - 1])
      else TrafficStep(before.0, before.1, readings[|readings| - 1])
  }

  function Sum(xs: seq<int>): int
  {
    if |xs| == 0 then 0 else Sum(xs[..|xs| - 1]) + xs[|xs| - 1]
  }

  /**
   * As written, "prev_bytes" stays 0, so the exported counter is the SUM of all cumulative
   * readings rather than the latest one.
   */
  lemma {:induction false} CounterSumsReadings(readings: seq<int>)
    ensures CounterAfter(readings, false).1.prevBytes == 0
    ensures CounterAfter(readings, false).0 == Sum(readings)
  {
    if |readings| > 0 {
      CounterSumsReadings(readings[..|readings| - 1]);
    }
  }

  /** Corrected, the increments telescope: the counter equals the latest cumulative reading. */
  lemma {:induction false} CorrectedCounterIsLatestReading(readings: seq<int>)
    ensures CounterAfter(readings, true).0 == (if |readings| == 0 then 0 else readings[|readings| - 1])
    ensures CounterAfter(readings, true).1.prevBytes == CounterAfter(readings, true).0
  {
    if |readings| > 0 {
      CorrectedCounterIsLatestReading(readings[..|readings| - 1]);
    }
  }

  /** Two refreshes that both read 100 cumulative bytes: as written the counter says 200. */
  lemma DoubleCountExample()
    ensures CounterAfter([100, 100], false).0 == 200
    ensures CounterAfter([100, 100], true).0 == 100
  {
    CounterSumsReadings([100, 100]);
    assert [100, 100][..1] == [100];
    assert [100][..0] == [];
    CorrectedCounterIsLatestReading([100, 100]);
  }
}
