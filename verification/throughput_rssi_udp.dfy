/**
 * demo_scripts/throughput_rssi_ssid_bssid_udp.py: a UDP stream from a wireless endpoint to a
 * ByteBlower port, whose per-interval frame counts are paired with the endpoint's WiFi state
 * and written to CSV in a fixed column order.
 */
module ThroughputRssiUdp {
  import opened Wrappers
  import opened PyMath
  import opened Wifi
  import opened Csv
  import Bpf
  import Ethernet

  /** `int(1e9 / frames_per_second)`: the inter-frame gap in ns; zero frames per second divides by zero. */
  function InterframeGap(framesPerSecond: real): (r: Result<int>)
    ensures r.Err? <==> framesPerSecond == 0.0
    ensures r.Err? ==> r.error == ZeroDivisionError
    ensures framesPerSecond > 0.0 && r.Ok? ==>
      0 <= r.value && r.value as real <= 1000000000.0 / framesPerSecond < (r.value + 1) as real
  {
    if framesPerSecond == 0.0 then Err(ZeroDivisionError) else Ok(Trunc(1000000000.0 / framesPerSecond))
  }

  /**
   * `int(duration / interframe_gap)`: the frames the stream sends. A gap of zero, which a rate
   * above 1e9 frames per second produces, divides by zero.
   */
  function NumberOfFrames(durationNs: int, gapNs: int): (r: Result<int>)
    ensures r.Err? <==> gapNs == 0
    ensures r.Err? ==> r.error == ZeroDivisionError
    ensures durationNs >= 0 && gapNs > 0 && r.Ok? ==>
      0 <= r.value && r.value as real <= durationNs as real / gapNs as real < (r.value + 1) as real
  {
    if gapNs == 0 then Err(ZeroDivisionError)
    else
      var x := durationNs as real / gapNs as real;
      assert durationNs >= 0 && gapNs > 0 ==> x >= 0.0;
      Ok(Trunc(x))
  }

  /** A rate above one frame per nanosecond truncates the gap to zero, and the frame count then fails. */
  lemma FastRateFails(framesPerSecond: real, durationNs: int)
    requires framesPerSecond > 1000000000.0
    ensures InterframeGap(framesPerSecond) == Ok(0)
    ensures NumberOfFrames(durationNs, InterframeGap(framesPerSecond).value) == Err(ZeroDivisionError)
  {
    assert 1000000000.0 / framesPerSecond < 1.0;
  }

  /** The payload text: `'a' * (frame_size - 42)` as two hex digits per byte. */
  function PayloadText(frameSize: int): (r: string)
    ensures |r| == 2 * NonNeg(frameSize - Ethernet.UDP_OVERHEAD)
  {
    Ethernet.FrameText([], frameSize, Ethernet.UDP_OVERHEAD)
  }

  /** The trigger filter: "ip host <ip> and udp port <port>". */
  function TriggerFilter(portIp: string, udpDstPort: int): (r: string)
    ensures r == Bpf.Conjunction([Bpf.IpHost(portIp), Bpf.UdpPort(udpDstPort)])
  {
    Bpf.Conjunction2(Bpf.IpHost(portIp), Bpf.UdpPort(udpDstPort));
    "ip host " + portIp + " and " + "udp port " + Text.IntText(udpDstPort)
  }

  /** The port transmits for the test duration plus one second. */
  function TransmitDurationNs(durationNs: int): (r: int)
    ensures r - durationNs == 1000000000
  {
    durationNs + 1000000000
  }

  /**
   * One network-info interval: its timestamp, its interfaces, and the stream's transmitted and
   * the trigger's received frame counts at that time (none when the history has no such interval).
   */
  datatype Snapshot = Snapshot(timestamp: int, interfaces: seq<Interface>, txFrames: Option<int>, rxFrames: Option<int>)

  /** The keys of a result row, in insertion order. */
  const ROW_KEYS := ["timestamp", "rssi", "ssid", "bssid", "tx_frames", "rx_frames", "loss", "throughput"]

  /** The columns written to the CSV file, in this order. */
  const DESIRED_KEYS := ["timestamp", "tx_frames", "rx_frames", "loss", "throughput", "rssi", "ssid", "bssid"]

  /** `(tx - rx) * 100.0 / tx`: the percentage of frames lost. */
  function LossPercent(tx: int, rx: int): (loss: real)
    requires tx != 0
    ensures 0 <= rx <= tx ==> 0.0 <= loss <= 100.0
    ensures rx == tx ==> loss == 0.0
    ensures rx == 0 ==> loss == 100.0
  {
    var loss := (tx - rx) as real * 100.0 / tx as real;
    assert loss * tx as real == (tx - rx) as real * 100.0;
    loss
  }

  /**
   * The result row of one interval. It starts from the defaults rssi -127, empty SSID and
   * BSSID and zero counts; the WiFi fields are overwritten when an interface is found, the
   * counts when the histories have the interval. The throughput is `frame_size * rx * 8` once
   * the trigger interval exists, and the loss is computed only for a non-zero transmit count.
   */
  function ResultRow(s: Snapshot, wanted: Option<string>, frameSize: int): (r: Record)
    ensures Keys(r) == ROW_KEYS
    ensures r[0].1 == Int(s.timestamp)
    ensures FindWifiInterface(s.interfaces, wanted).None? ==>
      r[1].1 == Int(-127) && r[2].1 == Str("") && r[3].1 == Str("")
    ensures FindWifiInterface(s.interfaces, wanted).Some? ==>
      var i := s.interfaces[FindWifiInterface(s.interfaces, wanted).value];
      r[1].1 == Int(i.rssi) && r[2].1 == Str(i.ssid) && r[3].1 == Str(i.bssid)
    ensures r[4].1 == Int(s.txFrames.GetOr(0)) && r[5].1 == Int(s.rxFrames.GetOr(0))
    ensures r[7].1 == Int(if s.rxFrames.Some? then frameSize * s.rxFrames.value * 8 else 0)
    ensures s.txFrames.GetOr(0) == 0 ==> r[6].1 == Int(0)
    ensures s.txFrames.GetOr(0) != 0 ==> r[6].1 == Real(LossPercent(s.txFrames.GetOr(0), s.rxFrames.GetOr(0)))
  {
    var found := FindWifiInterface(s.interfaces, wanted);
    var (rssi, ssid, bssid) :=
      if found.None? then (-127, "", "")
      else
        var i := s.interfaces[found.value];
        (i.rssi, i.ssid, i.bssid);
    var tx := s.txFrames.GetOr(0);
    var rx := s.rxFrames.GetOr(0);
    var throughput := if s.rxFrames.Some? then frameSize * rx * 8 else 0;
    var loss := if tx != 0 then Real(LossPercent(tx, rx)) else Int(0);
    [("timestamp", Int(s.timestamp)), ("rssi", Int(rssi)), ("ssid", Str(ssid)), ("bssid", Str(bssid)),
     ("tx_frames", Int(tx)), ("rx_frames", Int(rx)), ("loss", loss), ("throughput", Int(throughput))]
  }

  /** The results of `run`: one row per network-info interval, in interval order. */
  method CollectResults(snapshots: seq<Snapshot>, wanted: Option<string>, frameSize: int)
    returns (results: seq<Record>)
    ensures |results| == |snapshots|
    ensures forall k :: 0 <= k < |snapshots| ==> results[k] == ResultRow(snapshots[k], wanted, frameSize)
  {
    results := [];
    for k := 0 to |snapshots|
      invariant |results| == k
      invariant forall j :: 0 <= j < k ==> results[j] == ResultRow(snapshots[j], wanted, frameSize)
    {
      results := results + [ResultRow(snapshots[k], wanted, frameSize)];
    }
  }

  /**
   * Every column written is a key of every row and the timestamp is an int, so `write_csv`
   * never fails on the rows `run` returns.
   */
  lemma RowsWritable(results: seq<Record>, dateText: int -> string, realText: real -> string)
    requires forall k :: 0 <= k < |results| ==> Keys(results[k]) == ROW_KEYS && results[k][0].1.Int?
    ensures Lines(results, DESIRED_KEYS, ",", dateText, realText).Ok?
  {
    DesiredKeysPresent();
    forall k | 0 <= k < |results|
      ensures RowOk(results[k], DESIRED_KEYS, dateText, realText)
    {
      var row := results[k];
      assert Lookup(row, "timestamp") == Ok(row[0].1);
      RowOkWhenKeysPresent(row, DESIRED_KEYS, dateText, realText);
    }
    LinesOkIffRowsOk(results, DESIRED_KEYS, ",", dateText, realText);
  }

  lemma DesiredKeysPresent()
    ensures forall i :: 0 <= i < |DESIRED_KEYS| ==> DESIRED_KEYS[i] in ROW_KEYS
  {
    assert DESIRED_KEYS[0] == ROW_KEYS[0];
    assert DESIRED_KEYS[1] == ROW_KEYS[4];
    assert DESIRED_KEYS[2] == ROW_KEYS[5];
    assert DESIRED_KEYS[3] == ROW_KEYS[6];
    assert DESIRED_KEYS[4] == ROW_KEYS[7];
    assert DESIRED_KEYS[5] == ROW_KEYS[1];
    assert DESIRED_KEYS[6] == ROW_KEYS[2];
    assert DESIRED_KEYS[7] == ROW_KEYS[3];
  }
}
