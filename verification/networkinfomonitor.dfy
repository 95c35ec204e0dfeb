/**
 * wireless_endpoint/networkinfomonitor.py: a wireless endpoint records its network information
 * during a scenario; afterwards every recorded interval becomes one CSV row describing the
 * configured WiFi interface.
 */
module NetworkInfoMonitor {
  import opened Wrappers
  import opened Text
  import Wifi

  /** One interval of the network-info history: its timestamp and the interfaces it saw. */
  datatype Interval = Interval(timestamp: int, interfaces: seq<Wifi.Interface>)

  /** One result tuple: timestamp, quoted SSID, quoted BSSID, channel, RSSI and Tx rate. */
  datatype Row = Row(timestamp: int, ssid: string, bssid: string, channel: int, rssi: int, txRate: int)

  /** `ScenarioDurationSet(duration_s * 1000000000)`: the scenario length in nanoseconds. */
  function ScenarioDurationNs(durationS: int): (r: int)
    ensures r / 1000000000 == durationS && r % 1000000000 == 0
  {
    durationS * 1000000000
  }

  /**
   * The interface the inner loop leaves in `network_interface`: it is reassigned at every
   * display-name match and never breaks, so the LAST match wins.
   */
  function LastDisplayNamed(interfaces: seq<Wifi.Interface>, wanted: string): (r: Option<nat>)
    ensures r.Some? ==> r.value < |interfaces| && interfaces[r.value].displayName == wanted
    ensures r.Some? ==> forall j :: r.value < j < |interfaces| ==> interfaces[j].displayName != wanted
    ensures r.None? <==> forall j :: 0 <= j < |interfaces| ==> interfaces[j].displayName != wanted
  {
    if |interfaces| == 0 then None
    else if interfaces[|interfaces| - 1].displayName == wanted then Some(|interfaces| - 1)
    else LastDisplayNamed(interfaces[..|interfaces| - 1], wanted)
  }

  /** The result tuple of one interval, read from the selected interface. */
  function RowOf(interval: Interval, selected: Wifi.Interface): (r: Row)
    ensures r.timestamp == interval.timestamp && r.channel == selected.channel
    ensures r.rssi == selected.rssi && r.txRate == selected.txRate
    ensures r.ssid == Quote(selected.ssid) && r.bssid == Quote(selected.bssid)
  {
    Row(interval.timestamp, Quote(selected.ssid), Quote(selected.bssid), selected.channel, selected.rssi, selected.txRate)
  }

  /**
   * The result-collecting loop of `run`: one row per interval, in order, read from the last
   * interface whose display name is the configured one. When an interval has no such
   * interface, `network_interface` is None and reading it raises AttributeError.
   */
  method CollectResults(intervals: seq<Interval>, wanted: string) returns (r: Result<seq<Row>>)
    ensures r.Err? <==> exists k :: 0 <= k < |intervals| && LastDisplayNamed(intervals[k].interfaces, wanted).None?
    ensures r.Err? ==> r.error == AttributeError
    ensures r.Ok? ==> |r.value| == |intervals|
    ensures r.Ok? ==> forall k :: 0 <= k < |intervals| ==>
      LastDisplayNamed(intervals[k].interfaces, wanted).Some? &&
      r.value[k] == RowOf(intervals[k], intervals[k].interfaces[LastDisplayNamed(intervals[k].interfaces, wanted).value])
  {
    var results: seq<Row> := [];
    for i := 0 to |intervals|
      invariant |results| == i
      invariant forall k :: 0 <= k < i ==>
        LastDisplayNamed(intervals[k].interfaces, wanted).Some? &&
        results[k] == RowOf(intervals[k], intervals[k].interfaces[LastDisplayNamed(intervals[k].interfaces, wanted).value])
    {
      var interfaces := intervals[i].interfaces;
      var networkInterface: Option<nat> := None;
      for j := 0 to |interfaces|
        invariant networkInterface == LastDisplayNamed(interfaces[..j], wanted)
      {
        assert interfaces[..j + 1][..j] == interfaces[..j];
        if interfaces[j].displayName == wanted {
          networkInterface := Some(j);
        }
      }
      assert interfaces[..|interfaces|] == interfaces;
      if networkInterface.None? {
        return Err(AttributeError);
      }
      results := results + [RowOf(intervals[i], interfaces[networkInterface.value])];
    }
    return Ok(results);
  }

  /** The header tuple: six quoted column names. */
  const HEADERS := ["\"Time\"", "\"SSID\"", "\"BSSID\"", "\"Channel\"", "\"RSSI (dBm)\"", "\"Tx Rate (bps)\""]

  /** `[str(item) for item in result]`. */
  function RowFields(row: Row): (r: seq<string>)
    ensures |r| == 6 && r[1] == row.ssid && r[2] == row.bssid
  {
    [IntText(row.timestamp), row.ssid, row.bssid, IntText(row.channel), IntText(row.rssi), IntText(row.txRate)]
  }

  /** A line of the CSV file, fields joined with ';' (the newline is left out). */
  function CsvLine(fields: seq<string>): string
  {
    Join(fields, ";")
  }

  /** The header line splits back into the six column names. */
  lemma HeaderLineFields()
    ensures Split(CsvLine(HEADERS), ';') == HEADERS && |HEADERS| == 6
  {
    SplitJoin(HEADERS, ';');
  }

  /** The text of an integer holds only digits and a leading minus sign, so never ';'. */
  lemma IntTextWithoutSemicolon(i: int)
    ensures ';' !in IntText(i)
  {
    if i < 0 {
      DecimalTextDigits(-i);
      assert IntText(i) == "-" + DecimalText(-i);
    } else {
      DecimalTextDigits(i);
    }
  }

  /**
   * A row whose SSID and BSSID hold no ';' gives a line with exactly six fields, which are the
   * row's texts.
   */
  lemma RowLineFields(row: Row)
    requires ';' !in row.ssid && ';' !in row.bssid
    ensures Split(CsvLine(RowFields(row)), ';') == RowFields(row)
  {
    IntTextWithoutSemicolon(row.timestamp);
    IntTextWithoutSemicolon(row.channel);
    IntTextWithoutSemicolon(row.rssi);
    IntTextWithoutSemicolon(row.txRate);
    SplitJoin(RowFields(row), ';');
  }
}
