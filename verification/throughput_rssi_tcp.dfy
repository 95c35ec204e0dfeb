/**
 * demo_scripts/throughput_rssi_ssid_bssid_tcp.py: an HTTP test towards a wireless endpoint
 * whose network-info snapshots are paired with the HTTP throughput of the same moment and
 * written to CSV, timestamp first.
 */
module ThroughputRssiTcp {
  import opened Wrappers
  import opened PyMath
  import opened Wifi
  import opened Csv

  /** The sampling interval of the HTTP history and the network-info monitor, in nanoseconds. */
  const SAMPLE_DURATION := 1000000000

  /**
   * `int(2 * (duration / sample_duration))`: the history buffer length, enough samples for
   * twice the test duration.
   */
  function SampleCount(durationNs: int, sampleDurationNs: int): (n: int)
    requires sampleDurationNs > 0
    ensures durationNs >= 0 ==> (0 <= n &&
      n as real <= 2.0 * (durationNs as real / sampleDurationNs as real) < (n + 1) as real)
  {
    var x := 2.0 * (durationNs as real / sampleDurationNs as real);
    assert durationNs >= 0 ==> x >= 0.0;
    Trunc(x)
  }

  /**
   * One network-info interval: its timestamp, the interfaces it reports, and the HTTP rate of
   * the same moment in bits per second (none when the HTTP history has no such snapshot).
   */
  datatype Snapshot = Snapshot(timestamp: int, interfaces: seq<Interface>, rateBps: Option<real>)

  /** The columns of a result row, in insertion order. */
  const COLUMNS := ["timestamp", "throughput", "SSID", "BSSID", "RSSI"]

  /**
   * The result row of one interval: the throughput (0 without an HTTP snapshot), and the SSID,
   * BSSID and RSSI of the interface `find_wifi_interface` picks, or "Unknown", "Unknown", -127
   * when there is none. `update` keeps the keys where they were.
   */
  function ResultRow(s: Snapshot, wanted: Option<string>): (r: Record)
    ensures Keys(r) == COLUMNS
    ensures r[0].1 == Int(s.timestamp)
    ensures r[1].1 == Int(if s.rateBps.Some? then Trunc(s.rateBps.value) else 0)
    ensures FindWifiInterface(s.interfaces, wanted).None? ==>
      r[2].1 == Str("Unknown") && r[3].1 == Str("Unknown") && r[4].1 == Int(-127)
    ensures FindWifiInterface(s.interfaces, wanted).Some? ==>
      var i := s.interfaces[FindWifiInterface(s.interfaces, wanted).value];
      r[2].1 == Str(i.ssid) && r[3].1 == Str(i.bssid) && r[4].1 == Int(i.rssi)
  {
    var rate := if s.rateBps.Some? then s.rateBps.value else 0.0;
    var found := FindWifiInterface(s.interfaces, wanted);
    var (ssid, bssid, rssi) :=
      if found.None? then ("Unknown", "Unknown", -127)
      else
        var i := s.interfaces[found.value];
        (i.ssid, i.bssid, i.rssi);
    [("timestamp", Int(s.timestamp)), ("throughput", Int(Trunc(rate))),
     ("SSID", Str(ssid)), ("BSSID", Str(bssid)), ("RSSI", Int(rssi))]
  }

  /** The results of `run`: one row per network-info interval, in interval order. */
  method CollectResults(snapshots: seq<Snapshot>, wanted: Option<string>) returns (results: seq<Record>)
    ensures |results| == |snapshots|
    ensures forall k :: 0 <= k < |snapshots| ==> results[k] == ResultRow(snapshots[k], wanted)
  {
    results := [];
    for k := 0 to |snapshots|
      invariant |results| == k
      invariant forall j :: 0 <= j < k ==> results[j] == ResultRow(snapshots[j], wanted)
    {
      results := results + [ResultRow(snapshots[k], wanted)];
    }
  }

  /**
   * Writing the rows with `first_key='timestamp'` keeps the insertion order, since the
   * timestamp is already the first column.
   */
  lemma TimestampFirstKeepsColumns(row: Record)
    requires Keys(row) == COLUMNS
    ensures ColumnOrder(row, "timestamp") == Ok(COLUMNS)
  {
    assert Keys(row)[0] == "timestamp";
    ColumnOrderKeepsLeadingKey(row, "timestamp");
  }

  /**
   * The rows `run` returns are all written: every column is a key of each row and the
   * timestamp is an int.
   */
  lemma RowsWritable(results: seq<Record>, dateText: int -> string, realText: real -> string)
    requires forall k :: 0 <= k < |results| ==> Keys(results[k]) == COLUMNS && results[k][0].1.Int?
    ensures Lines(results, COLUMNS, ";", dateText, realText).Ok?
  {
    forall k | 0 <= k < |results|
      ensures RowOk(results[k], COLUMNS, dateText, realText)
    {
      RowWritable(results[k], dateText, realText);
    }
    LinesOkIffRowsOk(results, COLUMNS, ";", dateText, realText);
  }

  lemma RowWritable(row: Record, dateText: int -> string, realText: real -> string)
    requires Keys(row) == COLUMNS && row[0].1.Int?
    ensures RowOk(row, COLUMNS, dateText, realText)
  {
    assert row[0].0 == "timestamp";
    assert Lookup(row, "timestamp") == Ok(row[0].1);
    assert forall i :: 0 <= i < |COLUMNS| ==> COLUMNS[i] in Keys(row);
    RowOkWhenKeysPresent(row, COLUMNS, dateText, realText);
  }
}
